/** What the limiter grants a client, over all traffic and in terms of its configuration alone. */
module RateWindows {
  import opened Options
  import opened RateLimiter
  import opened TokenBucketModel

  /** An HTTP request at an enabled limiter, presenting the credential. */
  predicate OfClient(cfg: Config, requests: seq<(Scope, real)>, c: Credential, i: nat)
    requires i < |requests|
  {
    cfg.enabled && requests[i].0.kind == "http" && CredentialOf(requests[i].0) == c
  }

  /** How many of the requests `i..j` of a client were let through. */
  function Granted(cfg: Config, requests: seq<(Scope, real)>, c: Credential, i: nat, j: nat): nat
    requires i <= j <= |requests|
  {
    if i == j then 0
    else
      Granted(cfg, requests, c, i, j - 1)
      + if OfClient(cfg, requests, c, j - 1) && AnswerTo(cfg, requests, j - 1) == Passed then 1 else 0
  }

  ghost predicate InTime(requests: seq<(Scope, real)>) {
    forall i, j | 0 <= i <= j < |requests| :: requests[i].1 <= requests[j].1
  }

  // ---- From all requests to the client's own ------------------------------------------------------

  function KeyFor(c: Credential): string {
    match c
    case ApiKey(value) => "key:" + value
    case Authorization(value) => "auth:" + value
    case Host(value) => "ip:" + value
  }

  lemma KeyForCredential(scope: Scope, c: Credential)
    ensures RateKey(scope) == KeyFor(c) <==> CredentialOf(scope) == c
  {
    TagTells(scope);
    var key := KeyFor(c);
    match c
    case ApiKey(value) => assert key[0] == 'k' && key[4..] == value;
    case Authorization(value) => assert key[0] == 'a' && key[5..] == value;
    case Host(value) => assert key[0] == 'i' && key[3..] == value;
  }

  /** The client's own times among the first `n` requests. */
  function TimesOf(cfg: Config, requests: seq<(Scope, real)>, c: Credential, n: nat): seq<real>
    requires n <= |requests|
  {
    Times(cfg, requests, n, KeyFor(c))
  }

  lemma OneMoreTime(cfg: Config, requests: seq<(Scope, real)>, c: Credential, n: nat)
    requires n < |requests|
    ensures TimesOf(cfg, requests, c, n + 1)
         == TimesOf(cfg, requests, c, n) + if OfClient(cfg, requests, c, n) then [requests[n].1] else []
  {
    KeyForCredential(requests[n].0, c);
  }

  lemma {:induction false} TimesGrow(cfg: Config, requests: seq<(Scope, real)>, c: Credential, m: nat, n: nat)
    requires m <= n <= |requests|
    ensures TimesOf(cfg, requests, c, m) <= TimesOf(cfg, requests, c, n)
    decreases n
  {
    if m < n {
      TimesGrow(cfg, requests, c, m, n - 1);
      OneMoreTime(cfg, requests, c, n - 1);
    }
  }

  /** The client's place in the whole is its place among its own. */
  lemma PlaceOf(cfg: Config, requests: seq<(Scope, real)>, c: Credential, n: nat, all: nat)
    requires n < all <= |requests| && OfClient(cfg, requests, c, n)
    ensures var times, k := TimesOf(cfg, requests, c, all), |TimesOf(cfg, requests, c, n)|;
            && k < |times| && times[k] == requests[n].1
            && (AnswerTo(cfg, requests, n) == Passed <==> Admits(Own(cfg, times), times, k))
  {
    var times, upto := TimesOf(cfg, requests, c, all), TimesOf(cfg, requests, c, n + 1);
    AnsweredByOwn(cfg, requests, c, n);
    TimesGrow(cfg, requests, c, n + 1, all);
    AdmitsPrefix(cfg, upto, times, |upto| - 1);
  }

  lemma AnsweredByOwn(cfg: Config, requests: seq<(Scope, real)>, c: Credential, n: nat)
    requires n < |requests| && OfClient(cfg, requests, c, n)
    ensures var upto, k := TimesOf(cfg, requests, c, n + 1), |TimesOf(cfg, requests, c, n)|;
            && |upto| == k + 1 && upto[k] == requests[n].1
            && (AnswerTo(cfg, requests, n) == Passed <==> Admits(Own(cfg, upto), upto, k))
  {
    KeyForCredential(requests[n].0, c);
    OneMoreTime(cfg, requests, c, n);
    AnswersAreIndependent(cfg, requests, n);
  }

  /** Later requests do not change an answer. */
  lemma AdmitsPrefix(cfg: Config, upto: seq<real>, times: seq<real>, k: nat)
    requires k < |upto| && upto <= times
    ensures times[k] == upto[k] && (Admits(Own(cfg, times), times, k) <==> Admits(Own(cfg, upto), upto, k))
  {
    assert times == upto + times[|upto|..];
    AfterPrefix(Own(cfg, upto), upto, times[|upto|..], k);
    assert times[0] == upto[0];
  }

  /** `d` says of each of the client's own places whether its request was let through. */
  ghost predicate Answered(cfg: Config, requests: seq<(Scope, real)>, c: Credential, d: seq<bool>, all: nat)
    requires all <= |requests|
  {
    && |d| == |TimesOf(cfg, requests, c, all)|
    && forall n: nat | n < all && OfClient(cfg, requests, c, n) ::
         var k := |TimesOf(cfg, requests, c, n)|;
         k < |d| && (d[k] <==> AnswerTo(cfg, requests, n) == Passed)
  }

  lemma OwnBucketAnswers(cfg: Config, requests: seq<(Scope, real)>, c: Credential, all: nat)
    requires all <= |requests| && TimesOf(cfg, requests, c, all) != []
    ensures var times := TimesOf(cfg, requests, c, all);
            Answered(cfg, requests, c, Decisions(Own(cfg, times), times), all)
  {
    var times := TimesOf(cfg, requests, c, all);
    var d := Decisions(Own(cfg, times), times);
    forall n: nat | n < all && OfClient(cfg, requests, c, n)
      ensures var k := |TimesOf(cfg, requests, c, n)|; k < |d| && (d[k] <==> AnswerTo(cfg, requests, n) == Passed)
    {
      PlaceOf(cfg, requests, c, n, all);
    }
  }

  /** Grants are admissions of the client's own bucket. */
  lemma {:induction false} GrantsAreAdmissions(cfg: Config, requests: seq<(Scope, real)>, c: Credential, d: seq<bool>,
                                               i: nat, j: nat, all: nat)
    requires i <= j <= all <= |requests| && Answered(cfg, requests, c, d, all)
    ensures var p, q := |TimesOf(cfg, requests, c, i)|, |TimesOf(cfg, requests, c, j)|;
            p <= q <= |d| && Granted(cfg, requests, c, i, j) == Count(d, p, q)
    decreases j
  {
    if i == j {
      SizesGrow(cfg, requests, c, j, all);
    } else {
      GrantsAreAdmissions(cfg, requests, c, d, i, j - 1, all);
      GrantsGoOn(cfg, requests, c, d, i, j - 1, all, |TimesOf(cfg, requests, c, i)|, |TimesOf(cfg, requests, c, j - 1)|);
    }
  }

  lemma GrantsGoOn(cfg: Config, requests: seq<(Scope, real)>, c: Credential, d: seq<bool>,
                   i: nat, j: nat, all: nat, p: nat, q: nat)
    requires i <= j < all <= |requests| && Answered(cfg, requests, c, d, all)
    requires q == |TimesOf(cfg, requests, c, j)| && p <= q <= |d| && Granted(cfg, requests, c, i, j) == Count(d, p, q)
    ensures var q' := |TimesOf(cfg, requests, c, j + 1)|;
            p <= q' <= |d| && Granted(cfg, requests, c, i, j + 1) == Count(d, p, q')
  {
    OneMoreSize(cfg, requests, c, j);
    if OfClient(cfg, requests, c, j) { CountOneMore(d, p, q); }
  }

  lemma CountOneMore(d: seq<bool>, p: nat, q: nat)
    requires p <= q < |d|
    ensures Count(d, p, q + 1) == Count(d, p, q) + if d[q] then 1 else 0
  {
  }

  lemma SizesGrow(cfg: Config, requests: seq<(Scope, real)>, c: Credential, m: nat, n: nat)
    requires m <= n <= |requests|
    ensures |TimesOf(cfg, requests, c, m)| <= |TimesOf(cfg, requests, c, n)|
  {
    TimesGrow(cfg, requests, c, m, n);
  }

  lemma OneMoreSize(cfg: Config, requests: seq<(Scope, real)>, c: Credential, n: nat)
    requires n < |requests|
    ensures |TimesOf(cfg, requests, c, n + 1)|
         == |TimesOf(cfg, requests, c, n)| + if OfClient(cfg, requests, c, n) then 1 else 0
  {
    OneMoreTime(cfg, requests, c, n);
  }

  /** The client's own requests from `i` on come no earlier than that, and those before `j` no later. */
  lemma {:induction false} TimesInside(cfg: Config, requests: seq<(Scope, real)>, c: Credential, i: nat, j: nat)
    requires i <= j <= |requests| && InTime(requests)
    ensures var times, p := TimesOf(cfg, requests, c, j), |TimesOf(cfg, requests, c, i)|;
            && p <= |times|
            && forall k | p <= k < |times| :: i < j && requests[i].1 <= times[k] <= requests[j - 1].1
    decreases j
  {
    TimesGrow(cfg, requests, c, i, j);
    if i < j {
      TimesInside(cfg, requests, c, i, j - 1);
      OneMoreTime(cfg, requests, c, j - 1);
    }
  }

  lemma {:induction false} TimesInOrder(cfg: Config, requests: seq<(Scope, real)>, c: Credential, n: nat)
    requires n <= |requests| && InTime(requests)
    ensures NonDecreasing(TimesOf(cfg, requests, c, n))
    decreases n
  {
    if n > 0 {
      TimesInOrder(cfg, requests, c, n - 1);
      OneMoreTime(cfg, requests, c, n - 1);
      TimesInside(cfg, requests, c, 0, n - 1);
    }
  }

  // ---- What a client gets ------------------------------------------------------------------------

  /** In any window, whatever everybody else does, a client is granted no more than the burst and what
      the rate makes of the length of the window. */
  lemma NobodyGetsMore(cfg: Config, requests: seq<(Scope, real)>, c: Credential, i: nat, j: nat, length: real)
    requires InTime(requests) && cfg.rate >= 0.0 && cfg.burst >= 0
    requires i <= j <= |requests| && length >= 0.0 && (i < j ==> requests[j - 1].1 - requests[i].1 <= length)
    ensures Granted(cfg, requests, c, i, j) as real <= cfg.burst as real + cfg.rate * length
  {
    var times := TimesOf(cfg, requests, c, j);
    if times == [] {
      NothingGranted(cfg, requests, c, i, j);
      ScaleUp(cfg.rate, 0.0, length);
    } else {
      var b := Own(cfg, times);
      OwnBucketAnswers(cfg, requests, c, j);
      GrantsAreAdmissions(cfg, requests, c, Decisions(b, times), i, j, j);
      TimesInside(cfg, requests, c, i, j);
      TimesInOrder(cfg, requests, c, j);
      OwnWindow(cfg, times, |TimesOf(cfg, requests, c, i)|, length);
    }
  }

  lemma OwnWindow(cfg: Config, times: seq<real>, p: nat, length: real)
    requires times != [] && p <= |times| && NonDecreasing(times) && length >= 0.0 && cfg.rate >= 0.0 && cfg.burst >= 0
    requires p < |times| ==> times[|times| - 1] - times[p] <= length
    ensures Count(Decisions(Own(cfg, times), times), p, |times|) as real <= cfg.burst as real + cfg.rate * length
  {
    BucketStaysWithinWindows(Own(cfg, times), times);
    WindowsSlide(cfg.burst as real, cfg.rate, times, Decisions(Own(cfg, times), times), p, |times|, length);
  }

  lemma {:induction false} NothingGranted(cfg: Config, requests: seq<(Scope, real)>, c: Credential, i: nat, j: nat)
    requires i <= j <= |requests| && TimesOf(cfg, requests, c, j) == []
    ensures Granted(cfg, requests, c, i, j) == 0
    decreases j
  {
    if i < j {
      OneMoreTime(cfg, requests, c, j - 1);
      NothingGranted(cfg, requests, c, i, j - 1);
    }
  }

  /** One more after so many stays within the burst and what the rate refills over that length. */
  predicate Within(cfg: Config, granted: nat, length: real) {
    granted as real + 1.0 <= cfg.burst as real + Refilled(cfg.rate, length)
  }

  /** Does the window from request `i` leave room for request `n`? */
  ghost predicate LeavesRoom(cfg: Config, requests: seq<(Scope, real)>, c: Credential, i: nat, n: nat)
    requires i <= n < |requests|
  {
    Within(cfg, Granted(cfg, requests, c, i, n), requests[n].1 - requests[i].1)
  }

  /** ... and no less: over a clock that does not step back, a request is let through exactly when every
      window that opens with a request of the same client leaves room for it. */
  lemma GrantedIffEveryWindowLeavesRoom(cfg: Config, requests: seq<(Scope, real)>, c: Credential, n: nat)
    requires InTime(requests) && cfg.rate >= 0.0 && n < |requests| && OfClient(cfg, requests, c, n)
    ensures AnswerTo(cfg, requests, n) == Passed
       <==> forall i: nat | i <= n && OfClient(cfg, requests, c, i) :: LeavesRoom(cfg, requests, c, i, n)
  {
    var times := TimesOf(cfg, requests, c, n + 1);
    var b, m := Own(cfg, times), |TimesOf(cfg, requests, c, n)|;
    PlaceOf(cfg, requests, c, n, n + 1);
    AdmitsIffEveryWindowHasRoom(b, times, m);
    forall i: nat | i <= n && OfClient(cfg, requests, c, i)
      ensures var p := |TimesOf(cfg, requests, c, i)|;
              p <= m && (LeavesRoom(cfg, requests, c, i, n) <==> HasRoom(b, times, p, m))
    {
      RoomForRequest(cfg, requests, c, i, n, times, |TimesOf(cfg, requests, c, i)|, m);
    }
    if forall i: nat | i <= n && OfClient(cfg, requests, c, i) :: LeavesRoom(cfg, requests, c, i, n) {
      forall p | 0 <= p <= m ensures HasRoom(b, times, p, m) {
        var i := RequestAt(cfg, requests, c, p, n + 1);
        RoomForRequest(cfg, requests, c, i, n, times, p, m);
      }
    }
  }

  /** A window of all requests as a window of the client's own. */
  lemma WindowOfOwn(cfg: Config, requests: seq<(Scope, real)>, c: Credential, i: nat, n: nat)
    requires i <= n < |requests| && OfClient(cfg, requests, c, i) && OfClient(cfg, requests, c, n)
    ensures var times := TimesOf(cfg, requests, c, n + 1);
            var p, m := |TimesOf(cfg, requests, c, i)|, |TimesOf(cfg, requests, c, n)|;
            && p <= m < |times| && times[p] == requests[i].1 && times[m] == requests[n].1
            && (InTime(requests) ==> NonDecreasing(times))
            && Granted(cfg, requests, c, i, n) == Count(Decisions(Own(cfg, times), times), p, m)
  {
    var times := TimesOf(cfg, requests, c, n + 1);
    PlaceOf(cfg, requests, c, i, n + 1);
    PlaceOf(cfg, requests, c, n, n + 1);
    SizesGrow(cfg, requests, c, i, n);
    OwnBucketAnswers(cfg, requests, c, n + 1);
    GrantsAreAdmissions(cfg, requests, c, Decisions(Own(cfg, times), times), i, n, n + 1);
    if InTime(requests) { TimesInOrder(cfg, requests, c, n + 1); }
  }

  lemma RoomForRequest(cfg: Config, requests: seq<(Scope, real)>, c: Credential, i: nat, n: nat,
                       times: seq<real>, p: nat, m: nat)
    requires InTime(requests) && i <= n < |requests| && OfClient(cfg, requests, c, i) && OfClient(cfg, requests, c, n)
    requires times == TimesOf(cfg, requests, c, n + 1)
    requires p == |TimesOf(cfg, requests, c, i)| && m == |TimesOf(cfg, requests, c, n)|
    ensures p <= m < |times| && (LeavesRoom(cfg, requests, c, i, n) <==> HasRoom(Own(cfg, times), times, p, m))
  {
    WindowOfOwn(cfg, requests, c, i, n);
    OwnRoom(cfg, requests, c, i, n, times, p, m);
  }

  lemma OwnRoom(cfg: Config, requests: seq<(Scope, real)>, c: Credential, i: nat, n: nat, times: seq<real>, p: nat, m: nat)
    requires i <= n < |requests| && p <= m < |times| && NonDecreasing(times)
    requires times[p] == requests[i].1 && times[m] == requests[n].1
    requires Granted(cfg, requests, c, i, n) == Count(Decisions(Own(cfg, times), times), p, m)
    ensures LeavesRoom(cfg, requests, c, i, n) <==> HasRoom(Own(cfg, times), times, p, m)
  {
    var refilled := Refilled(cfg.rate, requests[n].1 - requests[i].1);
    assert refilled == Gained(Own(cfg, times), times, p, m) by {
      ElapsedIsDifference(times, p, m);
      GainedInTime(Own(cfg, times), times, p, m, cfg.rate, requests[n].1 - requests[i].1);
    }
    RoomOfGained(Own(cfg, times), times, p, m, Granted(cfg, requests, c, i, n), refilled);
  }

  /** The request behind one of the client's own places. */
  lemma {:induction false} RequestAt(cfg: Config, requests: seq<(Scope, real)>, c: Credential, p: nat, all: nat)
    returns (i: nat)
    requires all <= |requests| && p < |TimesOf(cfg, requests, c, all)|
    ensures i < all && OfClient(cfg, requests, c, i) && |TimesOf(cfg, requests, c, i)| == p
    decreases all
  {
    OneMoreTime(cfg, requests, c, all - 1);
    if p < |TimesOf(cfg, requests, c, all - 1)| {
      i := RequestAt(cfg, requests, c, p, all - 1);
    } else {
      i := all - 1;
    }
  }
}
