/** Waiting times between retries of a rate-limited request, in milliseconds. */
module Backoff {
  import opened Prelude

  const BASE_MS := 15_000
  const MAX_MS := 240_000

  /** The server's own delay when it names one, else 15 s doubled per attempt; four minutes at most either way. */
  function BackoffDelay(attempt: nat, retryAfterMs: Option<nat>): (ms: nat)
    ensures ms <= MAX_MS
  {
    if retryAfterMs.Some? then Min(retryAfterMs.value, MAX_MS)
    else Min(BASE_MS * PowerOfTwo(Min(attempt, 10)), MAX_MS)
  }

  lemma {:induction false} PowersGrow(a: nat, b: nat)
    requires a <= b
    ensures PowerOfTwo(a) <= PowerOfTwo(b)
  {
    if a < b {
      PowersGrow(a, b - 1);
    }
  }

  /** Without a delay from the server, each further rate limit doubles the wait until it reaches four minutes. */
  lemma WaitsDoubleUpToFourMinutes(attempt: nat)
    ensures BackoffDelay(0, None) == 15_000
    ensures BackoffDelay(attempt + 1, None) == Min(2 * BackoffDelay(attempt, None), 240_000)
    ensures attempt >= 4 ==> BackoffDelay(attempt, None) == 240_000
    ensures forall ms: nat :: BackoffDelay(attempt, Some(ms)) == Min(ms, 240_000)
  {
    assert PowerOfTwo(4) == 16 by {
      assert PowerOfTwo(2) == 4;
    }
    if attempt >= 4 {
      PowersGrow(4, Min(attempt, 10));
      PowersGrow(4, Min(attempt + 1, 10));
    }
  }
}
