/** `get_logs_with_retry`: the log fetch for one block, retried after every
    failure until five attempts have failed, after which the block is given
    up with an empty list. The fetch is an input: `fetch(k)` is what the
    provider answers to the (k+1)-th call. The five-second pause between
    attempts is time, which the model does not track. */
module Retry {
  import opened Wrappers

  const MaxAttempts: nat := 5

  datatype FetchOutcome<L> = FetchFailed | Fetched(logs: seq<L>)

  /** The function never builds an error; the type keeps the `Result` the
      source returns so that the caller's error branch can be modelled. */
  datatype FetchError = FetchError

  /** What the retry loop returns, and how many times it called the fetch. */
  datatype Retried<L> = Retried(result: Result<seq<L>, FetchError>, calls: nat)

  /** The loop after `failures` failed attempts. */
  function RetryFrom<L>(fetch: nat -> FetchOutcome<L>, failures: nat): (r: Retried<L>)
    requires failures < MaxAttempts
    ensures r.result.Ok?
    ensures failures < r.calls <= MaxAttempts
    ensures forall k | failures <= k < r.calls - 1 :: fetch(k).FetchFailed?
    ensures fetch(r.calls - 1).Fetched? ==> r.result.value == fetch(r.calls - 1).logs
    ensures fetch(r.calls - 1).FetchFailed? ==> r.calls == MaxAttempts && r.result.value == []
    decreases MaxAttempts - failures
  {
    match fetch(failures)
    case Fetched(logs) => Retried(Ok(logs), failures + 1)
    case FetchFailed =>
      if failures + 1 >= MaxAttempts then Retried(Ok([]), failures + 1)
      else RetryFrom(fetch, failures + 1)
  }

  /** `get_logs_with_retry`: never an error; the logs of the first successful
      call among the first five, or nothing once all five have failed. */
  function GetLogsWithRetry<L>(fetch: nat -> FetchOutcome<L>): (r: Retried<L>)
    ensures r.result.Ok?
    ensures 1 <= r.calls <= MaxAttempts
    ensures forall k | 0 <= k < r.calls - 1 :: fetch(k).FetchFailed?
    ensures fetch(r.calls - 1).Fetched? ==> r.result.value == fetch(r.calls - 1).logs
    ensures fetch(r.calls - 1).FetchFailed? ==> r.calls == MaxAttempts && r.result.value == []
  {
    RetryFrom(fetch, 0)
  }

  /** A fetch that always fails is called exactly five times, and the block
      yields no logs. */
  lemma AlwaysFailingFetch<L>(fetch: nat -> FetchOutcome<L>)
    requires forall k :: fetch(k).FetchFailed?
    ensures GetLogsWithRetry(fetch) == Retried(Ok([]), MaxAttempts)
  {
  }

  /** If the k-th call is the first to succeed and k is at most five, the
      result is exactly that call's logs, after k - 1 failures. */
  lemma FirstSuccessWins<L>(fetch: nat -> FetchOutcome<L>, k: nat)
    requires 1 <= k <= MaxAttempts
    requires forall j | 0 <= j < k - 1 :: fetch(j).FetchFailed?
    requires fetch(k - 1).Fetched?
    ensures GetLogsWithRetry(fetch) == Retried(Ok(fetch(k - 1).logs), k)
  {
  }
}
