/** Failure-carrying return values, standing in for the exceptions the chess model throws. */
module Wrappers {

  datatype Option<+T> = None | Some(value: T)

  /** A query that either yields a value or fails with an error kind. */
  datatype Result<+T, +E> = Success(value: T) | Failure(error: E)

  /** An operation that yields nothing on success and an error kind on failure. */
  datatype Outcome<+E> = Pass | Fail(error: E)

  /** One step of an ordered validation pipeline: whether it passes, and the error it raises if not. */
  datatype Check<+E> = Check(passes: bool, error: E)

  /** The error of the first failing check, or None when every check passes. */
  function FirstFailure<E>(checks: seq<Check<E>>): (r: Option<E>)
    ensures r.None? <==> forall k | 0 <= k < |checks| :: checks[k].passes
    ensures r.Some? ==>
      exists k | 0 <= k < |checks| ::
        !checks[k].passes && checks[k].error == r.value &&
        forall j | 0 <= j < k :: checks[j].passes
  {
    if |checks| == 0 then None
    else if !checks[0].passes then Some(checks[0].error)
    else
      var rest := FirstFailure(checks[1..]);
      assert forall k | 1 <= k < |checks| :: checks[k] == checks[1..][k - 1];
      rest
  }

  /** The error FirstFailure reports is that of the failing check with only passing checks before
      it: such a check is unique, so FirstFailure's contract fixes the result. */
  lemma FirstFailureAt<E>(checks: seq<Check<E>>, k: nat)
    requires k < |checks| && !checks[k].passes
    requires forall j | 0 <= j < k :: checks[j].passes
    ensures FirstFailure(checks) == Some(checks[k].error)
  {
  }
}
