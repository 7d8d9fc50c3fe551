/**
 * Trying several endpoints in turn, as the admin pages do when they do not
 * know which route the server offers (`firstOk` in
 * frontend/src/pages/admin/ProviderAdmin.jsx and, written the same way, in
 * frontend/src/pages/admin/AdminHome.jsx). The requests themselves are not
 * modelled: each attempt is given by the outcome it would have.
 */
module Attempts {
  import opened Wrappers

  /** A rejected request: the HTTP status of its response, if any; or `new Error('No working endpoint')`. */
  datatype Failure = Failure(status: Option<int>) | NoWorkingEndpoint

  /** What an awaited attempt does: resolve with a value or throw. */
  datatype Outcome<T> = Returned(value: T) | Threw(error: Failure)

  /** Every attempt before `k` throws. */
  predicate FailBefore<T>(tries: seq<Outcome<T>>, k: int)
    requires k <= |tries|
  {
    forall j :: 0 <= j < k ==> tries[j].Threw?
  }

  /**
   * What the loop of `firstOk` settles with from attempt `i` on, `last` being
   * the error of the attempt before: the first attempt that resolves; when
   * all throw, the last error; with none left to run, `last` or, when no
   * attempt ran, 'No working endpoint'.
   */
  function FirstOkFrom<T>(tries: seq<Outcome<T>>, i: nat, last: Option<Failure>): (r: Outcome<T>)
    requires i <= |tries|
    ensures forall k :: i <= k < |tries| && tries[k].Returned? && (forall j :: i <= j < k ==> tries[j].Threw?) ==> r == tries[k]
    ensures i < |tries| && (forall j :: i <= j < |tries| ==> tries[j].Threw?) ==> r == tries[|tries| - 1]
    ensures i == |tries| ==> r == Threw(if last.Some? then last.value else NoWorkingEndpoint)
    decreases |tries| - i
  {
    if i == |tries| then Threw(if last.Some? then last.value else NoWorkingEndpoint)
    else if tries[i].Returned? then tries[i]
    else FirstOkFrom(tries, i + 1, Some(tries[i].error))
  }

  /** What `firstOk(tries)` settles with. */
  function FirstOkOf<T>(tries: seq<Outcome<T>>): (r: Outcome<T>)
    ensures tries == [] ==> r == Threw(NoWorkingEndpoint)
    ensures forall k :: 0 <= k < |tries| && tries[k].Returned? && FailBefore(tries, k) ==> r == tries[k]
    ensures tries != [] && FailBefore(tries, |tries|) ==> r == tries[|tries| - 1]
  {
    FirstOkFrom(tries, 0, None)
  }

  /** How many attempts are started from attempt `i` on (counting the `i` before it). */
  function RunsFrom<T>(tries: seq<Outcome<T>>, i: nat): (n: nat)
    requires i <= |tries|
    ensures i <= n <= |tries|
    ensures forall j :: i <= j < n - 1 ==> tries[j].Threw?
    ensures n < |tries| ==> n > i && tries[n - 1].Returned?
    ensures n > i && tries[n - 1].Threw? ==> n == |tries|
    decreases |tries| - i
  {
    if i == |tries| then i
    else if tries[i].Returned? then i + 1
    else RunsFrom(tries, i + 1)
  }

  /**
   * How many attempts `firstOk` starts: every one up to the first that
   * resolves, and no later one; all of them when none resolves.
   */
  function Runs<T>(tries: seq<Outcome<T>>): (n: nat)
    ensures n <= |tries|
    ensures n > 0 ==> FailBefore(tries, n - 1)
    ensures n < |tries| ==> n > 0 && tries[n - 1].Returned?
    ensures FailBefore(tries, |tries|) ==> n == |tries|
  {
    RunsFrom(tries, 0)
  }

  /**
   * `async function firstOk(tries)`: runs the attempts in order and stops at
   * the first that resolves; `ran` counts the attempts that were started.
   */
  method FirstOk<T>(tries: seq<Outcome<T>>) returns (r: Outcome<T>, ran: nat)
    ensures r == FirstOkOf(tries) && ran == Runs(tries)
  {
    var lastErr: Option<Failure> := None;
    var i := 0;
    while i < |tries|
      invariant 0 <= i <= |tries|
      invariant FirstOkFrom(tries, i, lastErr) == FirstOkOf(tries)
      invariant RunsFrom(tries, i) == Runs(tries)
    {
      var t := tries[i];
      if t.Returned? {
        return t, i + 1;
      }
      lastErr := Some(t.error);
      i := i + 1;
    }
    r := Threw(if lastErr.Some? then lastErr.value else NoWorkingEndpoint);
    ran := i;
  }
}
