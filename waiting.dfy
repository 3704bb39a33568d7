/** The polling waits of the engine (an instance until it is stopped, an
    image until it is available) share one shape: poll, refresh the state
    from the answer, stop on an error or on the wanted state. The provider's
    answers are given as a finite sequence; where Go would poll forever the
    model ends in `StillWaiting` once the answers run out. */
module Waiting {
  import opened Errors

  /** How a wait ended. */
  datatype WaitOutcome = Reached | Failed(error: Error) | StillWaiting

  /** The wait from answer `n` on, in state `state`: each answer is the state
      a poll reports or the error it fails with. Returns the outcome and the
      number of answers used when the wait ends. */
  function AwaitFrom(state: string, target: string, reports: seq<Result<string>>, n: nat): (r: (WaitOutcome, nat))
    requires n <= |reports|
    ensures n <= r.1 <= |reports|
    decreases |reports| - n
  {
    if state == target then (Reached, n)
    else if n == |reports| then (StillWaiting, n)
    else match reports[n]
      case Err(e) => (Failed(e), n + 1)
      case Ok(next) => AwaitFrom(next, target, reports, n + 1)
  }

  /** The wait succeeds exactly when the state already was the target or
      the last answer it used reports the target; every answer before that
      reported some other state; it fails exactly when its last answer is
      an error, with that error; and a wait still going on has used every
      answer. */
  lemma {:induction false} AwaitFromEnds(state: string, target: string, reports: seq<Result<string>>, n: nat)
    requires n <= |reports|
    ensures var (outcome, m) := AwaitFrom(state, target, reports, n);
      && (outcome.Reached? <==> (m == n && state == target) || (m > n && reports[m - 1] == Ok(target)))
      && (outcome.Failed? <==> m > n && reports[m - 1].Err?)
      && (outcome.Failed? ==> outcome.error == reports[m - 1].error)
      && (forall i :: n <= i < m - 1 ==> reports[i].Ok? && reports[i].value != target)
      && (outcome.StillWaiting? ==> m == |reports|)
    decreases |reports| - n
  {
    if state != target && n < |reports| && reports[n].Ok? {
      AwaitFromEnds(reports[n].value, target, reports, n + 1);
    }
  }

  /** One answer of a wait that is not over. */
  lemma AwaitStep(state: string, target: string, reports: seq<Result<string>>, n: nat)
    requires n < |reports| && state != target
    ensures AwaitFrom(state, target, reports, n) ==
      if reports[n].Err? then (Failed(reports[n].error), n + 1)
      else AwaitFrom(reports[n].value, target, reports, n + 1)
  {
  }
}
