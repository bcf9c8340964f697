/**
  The `tokenURI` fetch inside the per-token loop of `main_loop`: up to five
  calls, a sleep after every failed call but the last, the delay starting at
  one second and doubling each time, and the last call's exception re-raised.

  The contract call is a parameter: `tokenUri(id, k)` is what the k-th call
  (counting from 0) for token `id` yields, `None` when it raised. Sleeps are
  recorded as values instead of being slept.
*/
module RetryLoop {
  import opened Wrappers

  type Uri = string

  const MaxRetries: nat := 5
  const InitialDelay: nat := 1

  function Pow2(n: nat): (p: nat)
    ensures p >= 1
  {
    if n == 0 then 1 else 2 * Pow2(n - 1)
  }

  /** The delays slept before the first `n` retries: one second, then doubling. */
  function Backoff(n: nat): (d: seq<nat>)
    ensures |d| == n
    ensures n > 0 ==> d[0] == InitialDelay
    ensures forall i :: 0 < i < n ==> d[i] == 2 * d[i - 1]
  {
    if n == 0 then [] else Backoff(n - 1) + [InitialDelay * Pow2(n - 1)]
  }

  /** The most the bot ever sleeps for one token is 1, 2, 4 and 8 seconds. */
  lemma {:induction false} FullBackoff()
    ensures Backoff(MaxRetries - 1) == [1, 2, 4, 8]
  {
    var d := Backoff(MaxRetries - 1);
    assert d[0] == 1 && d[1] == 2 && d[2] == 4 && d[3] == 8;
  }

  /** How many calls the loop has made when it stops, if it reaches attempt `k`. */
  function CallsFrom(tokenUri: (nat, nat) -> Option<Uri>, id: nat, k: nat): (n: nat)
    requires k < MaxRetries
    ensures k < n <= MaxRetries
    ensures forall j :: k <= j < n - 1 ==> tokenUri(id, j).None?
    ensures tokenUri(id, n - 1).Some? || n == MaxRetries
    decreases MaxRetries - k
  {
    if tokenUri(id, k).Some? || k == MaxRetries - 1 then k + 1 else CallsFrom(tokenUri, id, k + 1)
  }

  /** What one token's fetch did: the URI or the re-raised failure, the calls made, the sleeps. */
  datatype Fetch = Fetch(uri: Option<Uri>, calls: nat, sleeps: seq<nat>)

  /** The outcome of the retry loop for token `id`. */
  function Retry(tokenUri: (nat, nat) -> Option<Uri>, id: nat): (f: Fetch)
    ensures 1 <= f.calls <= MaxRetries
    ensures forall j :: 0 <= j < f.calls - 1 ==> tokenUri(id, j).None?
    ensures f.uri == tokenUri(id, f.calls - 1)
    ensures f.uri.None? ==> f.calls == MaxRetries
    ensures f.sleeps == Backoff(f.calls - 1)
  {
    var n := CallsFrom(tokenUri, id, 0);
    Fetch(tokenUri(id, n - 1), n, Backoff(n - 1))
  }

  /** The retry loop's outcome is pinned down by "first success, or five failures". */
  lemma {:induction false} RetryDetermined(tokenUri: (nat, nat) -> Option<Uri>, id: nat, n: nat)
    requires 1 <= n <= MaxRetries
    requires forall j :: 0 <= j < n - 1 ==> tokenUri(id, j).None?
    requires tokenUri(id, n - 1).Some? || n == MaxRetries
    ensures Retry(tokenUri, id) == Fetch(tokenUri(id, n - 1), n, Backoff(n - 1))
  {
    var m := Retry(tokenUri, id).calls;
    var lastOfRetry: nat, lastOfN: nat := m - 1, n - 1;
    assert lastOfRetry < n - 1 ==> tokenUri(id, lastOfRetry).None?;
    assert lastOfN < m - 1 ==> tokenUri(id, lastOfN).None?;
  }

  /** The `for attempt in range(max_retries)` loop of `main_loop`. */
  method FetchTokenUri(tokenUri: (nat, nat) -> Option<Uri>, id: nat) returns (f: Fetch)
    ensures f == Retry(tokenUri, id)
  {
    var retryDelay := InitialDelay;
    var sleeps: seq<nat> := [];
    for attempt := 0 to MaxRetries
      invariant attempt < MaxRetries
      invariant retryDelay == InitialDelay * Pow2(attempt)
      invariant sleeps == Backoff(attempt)
      invariant forall j :: 0 <= j < attempt ==> tokenUri(id, j).None?
    {
      var answer := tokenUri(id, attempt);
      if answer.Some? {
        RetryDetermined(tokenUri, id, attempt + 1);
        return Fetch(answer, attempt + 1, sleeps);
      }
      if attempt == MaxRetries - 1 {
        // the last attempt's exception is re-raised, with no sleep before it
        RetryDetermined(tokenUri, id, MaxRetries);
        return Fetch(None, MaxRetries, sleeps);
      }
      sleeps := sleeps + [retryDelay];
      retryDelay := retryDelay * 2;
    }
    assert false;
  }
}
