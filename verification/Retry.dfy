/** Which failed specialists are worth another pass. */
module Retry {
  import opened ConflictResolver
  import opened Options

  const TIMEOUT := "timeout"
  const SPECIALIST_ERROR := "specialist_error"

  /** An error that says nothing is no error; one that starts like a timeout is a timeout. */
  function Classify(error: Option<string>): Option<string> {
    if error.None? || error.value == "" then None
    else if "timed out" <= error.value then Some(TIMEOUT)
    else Some(SPECIALIST_ERROR)
  }

  predicate IsRetryable(r: SpecialistResult, retryOn: seq<string>) {
    Classify(r.error).Some? && Classify(r.error).value in retryOn
  }

  type Attempts = map<string, nat>

  function Made(attempts: Attempts, name: string): nat {
    if name in attempts then attempts[name] else 0
  }

  /** Retryable and still under the cap. */
  predicate Eligible(r: SpecialistResult, attempts: Attempts, maxAttempts: int, retryOn: seq<string>) {
    IsRetryable(r, retryOn) && Made(attempts, r.name) < maxAttempts
  }

  function ToRetry(results: seq<SpecialistResult>, attempts: Attempts, maxAttempts: int, retryOn: seq<string>): seq<string> {
    if results == [] then []
    else
      (if Eligible(results[0], attempts, maxAttempts, retryOn) then [results[0].name] else [])
      + ToRetry(results[1..], attempts, maxAttempts, retryOn)
  }

  predicate ShouldRetry(results: seq<SpecialistResult>, attempts: Attempts, maxAttempts: int, retryOn: seq<string>) {
    ToRetry(results, attempts, maxAttempts, retryOn) != []
  }

  /** Exactly the eligible names. */
  lemma {:induction false} ToRetryIsTheEligible(results: seq<SpecialistResult>, attempts: Attempts,
                                                maxAttempts: int, retryOn: seq<string>)
    ensures forall name :: name in ToRetry(results, attempts, maxAttempts, retryOn) <==>
                           exists i :: 0 <= i < |results| && results[i].name == name
                                       && Eligible(results[i], attempts, maxAttempts, retryOn)
  {
    if results != [] {
      ToRetryIsTheEligible(results[1..], attempts, maxAttempts, retryOn);
      forall name ensures name in ToRetry(results, attempts, maxAttempts, retryOn) <==>
                          exists i :: 0 <= i < |results| && results[i].name == name
                                      && Eligible(results[i], attempts, maxAttempts, retryOn)
      {
        if i :| 0 <= i < |results[1..]| && results[1..][i].name == name
                && Eligible(results[1..][i], attempts, maxAttempts, retryOn) {
          assert results[i + 1].name == name;
        }
        if i :| 0 <= i < |results| && results[i].name == name && Eligible(results[i], attempts, maxAttempts, retryOn) {
          if i > 0 { assert results[1..][i - 1].name == name; }
        }
      }
    }
  }

  /** The names come in the order of the results, and each result is judged by itself. */
  lemma {:induction false} ToRetryAppend(a: seq<SpecialistResult>, b: seq<SpecialistResult>, attempts: Attempts,
                                         maxAttempts: int, retryOn: seq<string>)
    ensures ToRetry(a + b, attempts, maxAttempts, retryOn)
         == ToRetry(a, attempts, maxAttempts, retryOn) + ToRetry(b, attempts, maxAttempts, retryOn)
  {
    if a == [] {
      assert a + b == b;
    } else {
      assert (a + b)[1..] == a[1..] + b && (a + b)[0] == a[0];
      ToRetryAppend(a[1..], b, attempts, maxAttempts, retryOn);
      var head := if Eligible(a[0], attempts, maxAttempts, retryOn) then [a[0].name] else [];
      assert ToRetry(a, attempts, maxAttempts, retryOn) == head + ToRetry(a[1..], attempts, maxAttempts, retryOn);
    }
  }

  /** A success is never retryable, nor a failure that says nothing. */
  lemma SilentIsNotRetryable(r: SpecialistResult, retryOn: seq<string>)
    requires !Errored(r)
    ensures !IsRetryable(r, retryOn)
  {
  }
}
