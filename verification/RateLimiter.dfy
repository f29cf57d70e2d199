/** The limiter in front of the service: one bucket per throttle key, made on the key's first
    request. */
module RateLimiter {
  import opened Options
  import opened TokenBucketModel

  /** A request as the server hands it over; header values are bytes, read as characters. */
  datatype Scope = Scope(kind: string, headers: seq<(string, string)>, client: Option<string>)

  datatype Config = Config(enabled: bool, rate: real, burst: int)

  datatype Answer = Passed | Refused(retryAfter: int)

  /** The value a list of headers gives a name once it is a dictionary: the last one. */
  function Header(headers: seq<(string, string)>, name: string): Option<string>
    decreases |headers|
  {
    if headers == [] then None
    else if headers[|headers| - 1].0 == name then Some(headers[|headers| - 1].1)
    else Header(headers[..|headers| - 1], name)
  }

  /** The API key if there is one, else the authorization header, else the client's address; an
      empty header counts as absent. */
  function RateKey(scope: Scope): string {
    match Header(scope.headers, "x-api-key")
    case Some(apiKey) => if apiKey != "" then "key:" + apiKey else Fallback(scope)
    case None => Fallback(scope)
  }

  function Fallback(scope: Scope): string {
    match Header(scope.headers, "authorization")
    case Some(authorization) => if authorization != "" then "auth:" + authorization else Address(scope)
    case None => Address(scope)
  }

  function Address(scope: Scope): string {
    "ip:" + match scope.client case Some(host) => host case None => "unknown"
  }

  type Limits = map<string, Bucket>

  predicate Limited(cfg: Config, scope: Scope) {
    cfg.enabled && scope.kind == "http"
  }

  /** One request: the buckets afterwards and the answer. */
  function Serve(cfg: Config, limits: Limits, scope: Scope, now: real): (Limits, Answer) {
    if !Limited(cfg, scope) then (limits, Passed)
    else
      var key := RateKey(scope);
      var b := if key in limits then limits[key] else Full(cfg.burst as real, cfg.rate, now);
      var (b', admitted) := Consume(b, now);
      (limits[key := b'], if admitted then Passed else Refused(RetryAfter(b')))
  }

  class RateLimitMiddleware {
    const cfg: Config
    var buckets: map<string, TokenBucket>

    /** No two keys share a bucket object. */
    ghost predicate Valid()
      reads this
    {
      forall k, k' | k in buckets && k' in buckets && k != k' :: buckets[k] != buckets[k']
    }

    ghost function View(): Limits
      reads this, buckets.Values
    {
      map k | k in buckets :: buckets[k].View()
    }

    constructor (cfg: Config)
      ensures this.cfg == cfg && Valid() && View() == map[]
    {
      this.cfg := cfg;
      buckets := map[];
    }

    method Call(scope: Scope, now: real) returns (answer: Answer)
      requires Valid()
      modifies this, buckets.Values
      ensures Valid()
      ensures (View(), answer) == Serve(cfg, old(View()), scope, now)
      ensures !cfg.enabled || scope.kind != "http" ==> answer == Passed && View() == old(View())
      ensures forall k | k in buckets :: (k in old(buckets) && buckets[k] == old(buckets[k])) || fresh(buckets[k])
    {
      if !cfg.enabled || scope.kind != "http" {
        return Passed;
      }
      var key := RateKey(scope);
      if key !in buckets {
        var bucket := new TokenBucket(cfg.burst as real, cfg.rate, now);
        buckets := buckets[key := bucket];
      }
      var bucket := buckets[key];
      assert forall k | k in buckets && k != key :: buckets[k] != bucket;
      var admitted := bucket.TryConsume(now);
      assert View() == old(View())[key := bucket.View()];
      if admitted {
        return Passed;
      }
      var seconds := bucket.Retry();
      return Refused(seconds);
    }
  }

  // ---- Many requests -------------------------------------------------------------------------

  /** The buckets once the first `n` requests have been served. */
  function Served(cfg: Config, requests: seq<(Scope, real)>, n: nat): Limits
    requires n <= |requests|
  {
    if n == 0 then map[] else Serve(cfg, Served(cfg, requests, n - 1), requests[n - 1].0, requests[n - 1].1).0
  }

  function AnswerTo(cfg: Config, requests: seq<(Scope, real)>, n: nat): Answer
    requires n < |requests|
  {
    Serve(cfg, Served(cfg, requests, n), requests[n].0, requests[n].1).1
  }

  /** When, among the first `n` requests, this key was throttled. */
  function Times(cfg: Config, requests: seq<(Scope, real)>, n: nat, key: string): seq<real>
    requires n <= |requests|
  {
    if n == 0 then []
    else
      Times(cfg, requests, n - 1, key)
      + if Limited(cfg, requests[n - 1].0) && RateKey(requests[n - 1].0) == key then [requests[n - 1].1] else []
  }

  /** The bucket a lone client would have had: full at its first request. */
  function Own(cfg: Config, times: seq<real>): Bucket
    requires times != []
  {
    Full(cfg.burst as real, cfg.rate, times[0])
  }

  lemma {:induction false} AfterPrefix(b: Bucket, times: seq<real>, more: seq<real>, n: nat)
    requires n <= |times|
    ensures After(b, times + more, n) == After(b, times, n)
  {
    if n > 0 { AfterPrefix(b, times, more, n - 1); }
  }

  /** Each key's bucket is what that client alone would have made of it. */
  lemma {:induction false} BucketsAreIndependent(cfg: Config, requests: seq<(Scope, real)>, n: nat, key: string)
    requires n <= |requests|
    ensures var times := Times(cfg, requests, n, key);
            var limits := Served(cfg, requests, n);
            && (key in limits <==> times != [])
            && (times != [] ==> limits[key] == After(Own(cfg, times), times, |times|))
  {
    if n > 0 {
      BucketsAreIndependent(cfg, requests, n - 1, key);
      var before := Times(cfg, requests, n - 1, key);
      var times := Times(cfg, requests, n, key);
      var (scope, now) := requests[n - 1];
      if Limited(cfg, scope) && RateKey(scope) == key {
        assert times == before + [now];
        if before != [] { AfterPrefix(Own(cfg, before), before, [now], |before|); }
      } else {
        assert times == before;
      }
    }
  }

  /** Every answer a client gets, however the requests interleave, is the one a bucket of its own,
      fed its own requests, would have given. */
  lemma AnswersAreIndependent(cfg: Config, requests: seq<(Scope, real)>, n: nat)
    requires n < |requests|
    ensures var (scope, now) := requests[n];
            if !Limited(cfg, scope) then AnswerTo(cfg, requests, n) == Passed
            else
              var times := Times(cfg, requests, n + 1, RateKey(scope));
              var m := |times| - 1;
              && times != [] && times[m] == now
              && AnswerTo(cfg, requests, n)
                 == if Admits(Own(cfg, times), times, m) then Passed
                    else Refused(RetryAfter(After(Own(cfg, times), times, m + 1)))
  {
    var (scope, now) := requests[n];
    if Limited(cfg, scope) {
      var key := RateKey(scope);
      var before := Times(cfg, requests, n, key);
      BucketsAreIndependent(cfg, requests, n, key);
      assert Times(cfg, requests, n + 1, key) == before + [now];
      if before != [] { AfterPrefix(Own(cfg, before), before, [now], |before|); }
    }
  }

  /** A limiter that is switched off, and a scope that is not HTTP, are no limit: passed, and every
      bucket stays as it was.  Everybody else is counted in the bucket of the request's key. */
  lemma OnlyEnabledHttpIsLimited(cfg: Config, limits: Limits, scope: Scope, now: real)
    ensures !cfg.enabled || scope.kind != "http" ==> Serve(cfg, limits, scope, now) == (limits, Passed)
    ensures cfg.enabled && scope.kind == "http" ==>
              var after := Serve(cfg, limits, scope, now).0;
              RateKey(scope) in after && after[RateKey(scope)].updated == now
              && after - {RateKey(scope)} == limits - {RateKey(scope)}
  {
  }

  // ---- Who shares a bucket ---------------------------------------------------------------------

  /** What a request is throttled by. */
  datatype Credential = ApiKey(value: string) | Authorization(value: string) | Host(value: string)

  predicate Filled(header: Option<string>) {
    header.Some? && header.value != ""
  }

  function CredentialOf(scope: Scope): Credential {
    var apiKey, authorization := Header(scope.headers, "x-api-key"), Header(scope.headers, "authorization");
    if Filled(apiKey) then ApiKey(apiKey.value)
    else if Filled(authorization) then Authorization(authorization.value)
    else Host(if scope.client.Some? then scope.client.value else "unknown")
  }

  /** The last header of that name, with that value. */
  ghost predicate LastHeader(headers: seq<(string, string)>, name: string, value: string) {
    exists i :: 0 <= i < |headers| && headers[i] == (name, value) && forall j | i < j < |headers| :: headers[j].0 != name
  }

  lemma {:induction false} HeaderIsLast(headers: seq<(string, string)>, name: string)
    ensures forall value :: Header(headers, name) == Some(value) <==> LastHeader(headers, name, value)
    ensures Header(headers, name) == None <==> forall i | 0 <= i < |headers| :: headers[i].0 != name
    decreases |headers|
  {
    if headers != [] {
      var before, n := headers[..|headers| - 1], |headers| - 1;
      HeaderIsLast(before, name);
      forall value ensures Header(headers, name) == Some(value) <==> LastHeader(headers, name, value) {
        if headers[n].0 == name {
          assert LastHeader(headers, name, headers[n].1);
        } else {
          if LastHeader(before, name, value) {
            var i :| 0 <= i < n && before[i] == (name, value) && forall j | i < j < n :: before[j].0 != name;
            assert headers[i] == (name, value);
            forall j | i < j < |headers| ensures headers[j].0 != name { if j < n { assert headers[j] == before[j]; } }
          }
          if LastHeader(headers, name, value) {
            var i :| 0 <= i < |headers| && headers[i] == (name, value) && forall j | i < j < |headers| :: headers[j].0 != name;
            assert before[i] == (name, value);
          }
        }
      }
    }
  }

  /** That name has no value to go by. */
  ghost predicate Unfilled(headers: seq<(string, string)>, name: string) {
    forall value | LastHeader(headers, name, value) :: value == ""
  }

  /** The key of a request, read off its headers: the last API key sent, if it says something; else
      the last authorization, if it does; else the host, or `unknown` without one. */
  lemma RequestsAreKeyed(scope: Scope)
    ensures forall v | LastHeader(scope.headers, "x-api-key", v) && v != "" :: RateKey(scope) == "key:" + v
    ensures Unfilled(scope.headers, "x-api-key") ==>
              forall v | LastHeader(scope.headers, "authorization", v) && v != "" :: RateKey(scope) == "auth:" + v
    ensures Unfilled(scope.headers, "x-api-key") && Unfilled(scope.headers, "authorization") ==>
              RateKey(scope) == "ip:" + if scope.client.Some? then scope.client.value else "unknown"
  {
    HeaderIsLast(scope.headers, "x-api-key");
    HeaderIsLast(scope.headers, "authorization");
  }

  /** Two requests share a bucket exactly when they present the same credential: the tags keep keys,
      authorizations and hosts apart, whatever they contain. */
  lemma KeysTellClientsApart(a: Scope, b: Scope)
    ensures RateKey(a) == RateKey(b) <==> CredentialOf(a) == CredentialOf(b)
  {
    TagTells(a);
    TagTells(b);
  }

  /** A key starts with its kind and goes on with the credential. */
  lemma TagTells(scope: Scope)
    ensures var key, c := RateKey(scope), CredentialOf(scope);
            match c
            case ApiKey(value) => key == "key:" + value && key[0] == 'k' && key[4..] == value
            case Authorization(value) => key == "auth:" + value && key[0] == 'a' && key[5..] == value
            case Host(value) => key == "ip:" + value && key[0] == 'i' && key[3..] == value
  {
  }

  ghost predicate DistinctApiKeys(requests: seq<(Scope, real)>) {
    && (forall i | 0 <= i < |requests| :: CredentialOf(requests[i].0).ApiKey?)
    && (forall i, j | 0 <= i < j < |requests| :: CredentialOf(requests[i].0) != CredentialOf(requests[j].0))
  }

  /** A spray of different keys is never throttled, though it all comes from one host: each request
      meets a full bucket of its own. */
  lemma SprayIsNeverThrottled(cfg: Config, requests: seq<(Scope, real)>, n: nat)
    requires cfg.burst >= 1 && DistinctApiKeys(requests) && n < |requests|
    ensures AnswerTo(cfg, requests, n) == Passed
  {
    var (scope, now) := requests[n];
    if Limited(cfg, scope) {
      var key := RateKey(scope);
      forall i | 0 <= i < n ensures RateKey(requests[i].0) != key { KeysTellClientsApart(requests[i].0, scope); }
      NeverThrottledBefore(cfg, requests, n, key);
      BucketsAreIndependent(cfg, requests, n, key);
    }
  }

  lemma {:induction false} NeverThrottledBefore(cfg: Config, requests: seq<(Scope, real)>, n: nat, key: string)
    requires n <= |requests| && forall i | 0 <= i < n :: RateKey(requests[i].0) != key
    ensures Times(cfg, requests, n, key) == []
  {
    if n > 0 { NeverThrottledBefore(cfg, requests, n - 1, key); }
  }

  /** An input: a bucket of one, a host, and two bad keys at one instant.  The same key twice is
      refused, the second key is not. */
  lemma TwoBadKeysTwoBuckets()
    ensures var cfg := Config(true, 1.0, 1);
            var one := Scope("http", [("x-api-key", "bad-1")], Some("10.0.0.1"));
            var two := Scope("http", [("x-api-key", "bad-2")], Some("10.0.0.1"));
            && AnswerTo(cfg, [(one, 0.0), (one, 0.0)], 1) == Refused(1)
            && AnswerTo(cfg, [(one, 0.0), (two, 0.0)], 1) == Passed
  {
    var cfg := Config(true, 1.0, 1);
    var one := Scope("http", [("x-api-key", "bad-1")], Some("10.0.0.1"));
    var two := Scope("http", [("x-api-key", "bad-2")], Some("10.0.0.1"));
    assert CredentialOf(one) == ApiKey("bad-1") && CredentialOf(two) == ApiKey("bad-2");
    assert "bad-1"[4] != "bad-2"[4];
    SprayIsNeverThrottled(cfg, [(one, 0.0), (two, 0.0)], 1);
    OneKeyTwice(cfg, one);
  }

  lemma OneKeyTwice(cfg: Config, scope: Scope)
    requires cfg == Config(true, 1.0, 1) && scope.kind == "http"
    ensures AnswerTo(cfg, [(scope, 0.0), (scope, 0.0)], 1) == Refused(1)
  {
    var requests := [(scope, 0.0), (scope, 0.0)];
    var key := RateKey(scope);
    assert Served(cfg, requests, 0) == map[];
    assert Served(cfg, requests, 1) == map[key := Bucket(1.0, 1.0, 0.0, 0.0)];
  }
}
