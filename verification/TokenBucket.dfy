/** One refilling token bucket: how it admits, what that bounds, and what its retry hint is worth.

    Times are reals and the clock is whatever the caller passes; only the theorems that need a
    non-decreasing clock ask for one. */
module TokenBucketModel {

  datatype Bucket = Bucket(capacity: real, rate: real, tokens: real, updated: real)

  function Max(x: real, y: real): real { if x < y then y else x }

  function Min(x: real, y: real): real { if y < x then y else x }

  function Full(capacity: real, rate: real, now: real): Bucket {
    Bucket(capacity, rate, capacity, now)
  }

  function Refill(b: Bucket, now: real): real {
    Min(b.capacity, b.tokens + Max(0.0, now - b.updated) * b.rate)
  }

  function Consume(b: Bucket, now: real): (Bucket, bool) {
    var tokens := Refill(b, now);
    if tokens >= 1.0 then (b.(tokens := tokens - 1.0, updated := now), true)
    else (b.(tokens := tokens, updated := now), false)
  }

  /** Truncation towards zero, as an integer conversion does it. */
  function Truncate(x: real): int {
    if x >= 0.0 then x.Floor else -((-x).Floor)
  }

  /** A wait as the whole seconds put in the header. */
  function WholeSeconds(x: real): int {
    var n := Truncate(x + 0.999);
    if n < 1 then 1 else n
  }

  function RetryAfter(b: Bucket): int {
    if b.rate <= 0.0 then 1 else WholeSeconds((1.0 - b.tokens) / b.rate)
  }

  class TokenBucket {
    const capacity: real
    const rate: real
    var tokens: real
    var updated: real

    function View(): Bucket
      reads this
    {
      Bucket(capacity, rate, tokens, updated)
    }

    constructor (capacity: real, rate: real, now: real)
      ensures View() == Full(capacity, rate, now)
    {
      this.capacity, this.rate := capacity, rate;
      tokens, updated := capacity, now;
    }

    method TryConsume(now: real) returns (admitted: bool)
      modifies this
      ensures (View(), admitted) == Consume(old(View()), now)
    {
      var elapsed := if now - updated > 0.0 then now - updated else 0.0;
      tokens := tokens + elapsed * rate;
      if capacity < tokens { tokens := capacity; }
      updated := now;
      if tokens >= 1.0 {
        tokens := tokens - 1.0;
        return true;
      }
      return false;
    }

    method Retry() returns (seconds: int)
      ensures seconds == RetryAfter(View())
      ensures seconds >= 1 && (rate <= 0.0 ==> seconds == 1)
    {
      if rate <= 0.0 { return 1; }
      var needed := 1.0 - tokens;
      seconds := Truncate(needed / rate + 0.999);
      if seconds < 1 { seconds := 1; }
    }
  }

  // ---- A sequence of requests ----------------------------------------------------------------

  /** The bucket once the first `n` requests have been answered. */
  function After(b: Bucket, times: seq<real>, n: nat): Bucket
    requires n <= |times|
  {
    if n == 0 then b else Consume(After(b, times, n - 1), times[n - 1]).0
  }

  /** Was request `n` admitted? */
  predicate Admits(b: Bucket, times: seq<real>, n: nat)
    requires n < |times|
  {
    Consume(After(b, times, n), times[n]).1
  }

  /** The answers to all requests. */
  function Decisions(b: Bucket, times: seq<real>): (d: seq<bool>)
    ensures |d| == |times| && forall n | 0 <= n < |d| :: d[n] == Admits(b, times, n)
  {
    seq(|times|, n requires 0 <= n < |times| => Admits(b, times, n))
  }

  /** How many of the requests `i..j` were admitted. */
  function Count(d: seq<bool>, i: nat, j: nat): nat
    requires i <= j <= |d|
  {
    if i == j then 0 else Count(d, i, j - 1) + if d[j - 1] then 1 else 0
  }

  /** How far the clock has moved forward from request `i` to request `j`; steps back do not count. */
  function Elapsed(times: seq<real>, i: nat, j: nat): real
    requires i <= j < |times|
  {
    if i == j then 0.0 else Elapsed(times, i, j - 1) + Max(0.0, times[j] - times[j - 1])
  }

  /** What request `n + 1` finds refilled since request `n`. */
  function Gain(b: Bucket, times: seq<real>, n: nat): real
    requires n + 1 < |times|
  {
    Max(0.0, times[n + 1] - times[n]) * b.rate
  }

  function Gained(b: Bucket, times: seq<real>, i: nat, j: nat): real
    requires i <= j < |times|
  {
    if i == j then 0.0 else Gained(b, times, i, j - 1) + Gain(b, times, j - 1)
  }

  /** The room that the window from request `i` up to `j` leaves for request `j`. */
  function Room(b: Bucket, times: seq<real>, i: nat, j: nat): real
    requires i <= j < |times|
  {
    b.capacity + Gained(b, times, i, j) - Count(Decisions(b, times), i, j) as real
  }

  lemma {:induction false} GainedIsRateTimesElapsed(b: Bucket, times: seq<real>, i: nat, j: nat)
    requires i <= j < |times|
    ensures Gained(b, times, i, j) == b.rate * Elapsed(times, i, j)
  {
    if i < j {
      GainedIsRateTimesElapsed(b, times, i, j - 1);
      Distribute(b.rate, Elapsed(times, i, j - 1), Max(0.0, times[j] - times[j - 1]));
    }
  }

  lemma Distribute(r: real, x: real, y: real)
    ensures r * (x + y) == r * x + y * r
  {
  }

  lemma ScaleUp(r: real, x: real, y: real)
    requires r >= 0.0 && x <= y
    ensures r * x <= r * y
  {
  }

  lemma {:induction false} ParametersStay(b: Bucket, times: seq<real>, n: nat)
    requires n <= |times|
    ensures var a := After(b, times, n);
            && a.capacity == b.capacity && a.rate == b.rate
            && (n > 0 ==> a.updated == times[n - 1])
  {
    if n > 0 { ParametersStay(b, times, n - 1); }
  }

  /** What a bucket holds at `u` that was asked at `t`. */
  lemma RefillOnce(a: Bucket, t: real, u: real)
    ensures var (after, admitted) := Consume(a, t);
            Refill(after, u)
            == Min(a.capacity, Refill(a, t) - (if admitted then 1.0 else 0.0) + Max(0.0, u - t) * a.rate)
  {
  }

  /** The tokens request `n + 1` finds, from those request `n` found. */
  lemma RefillStep(b: Bucket, times: seq<real>, n: nat)
    requires n + 1 < |times|
    ensures Refill(After(b, times, n + 1), times[n + 1])
            == Min(b.capacity, Refill(After(b, times, n), times[n]) - (if Admits(b, times, n) then 1.0 else 0.0)
                               + Gain(b, times, n))
  {
    ParametersStay(b, times, n);
    RefillOnce(After(b, times, n), times[n], times[n + 1]);
  }

  lemma RoomStep(b: Bucket, times: seq<real>, i: nat, n: nat)
    requires i <= n && n + 1 < |times|
    ensures Room(b, times, i, n + 1)
            == Room(b, times, i, n) - (if Admits(b, times, n) then 1.0 else 0.0) + Gain(b, times, n)
  {
  }

  /** What request `n` finds in the bucket. */
  function Found(b: Bucket, times: seq<real>, n: nat): real
    requires n < |times|
  {
    Refill(After(b, times, n), times[n])
  }

  /** ... is the least room of all windows ending at it. */
  lemma {:induction false} FoundIsLeastRoom(b: Bucket, times: seq<real>, n: nat) returns (best: nat)
    requires n < |times| && b.rate >= 0.0 && b.tokens == b.capacity
    ensures forall i | 0 <= i <= n :: Found(b, times, n) <= Room(b, times, i, n)
    ensures best <= n && Found(b, times, n) == Room(b, times, best, n)
  {
    if n == 0 {
      best := 0;
      ScaleUp(b.rate, 0.0, Max(0.0, times[0] - b.updated));
    } else {
      best := FoundIsLeastRoom(b, times, n - 1);
      RefillStep(b, times, n - 1);
      RoomStep(b, times, best, n - 1);
      forall i | 0 <= i <= n ensures Found(b, times, n) <= Room(b, times, i, n) {
        if i < n { RoomStep(b, times, i, n - 1); }
      }
      if Found(b, times, n) == b.capacity { best := n; }
    }
  }

  predicate HasRoom(b: Bucket, times: seq<real>, i: nat, n: nat)
    requires i <= n < |times|
  {
    Room(b, times, i, n) >= 1.0
  }

  /** The bucket against a definition with no state in it: a request is admitted exactly when every
      window reaching back from it has room for one more.  Whatever the clock does. */
  lemma AdmitsIffEveryWindowHasRoom(b: Bucket, times: seq<real>, n: nat)
    requires n < |times| && b.rate >= 0.0 && b.tokens == b.capacity
    ensures Admits(b, times, n) <==> forall i | 0 <= i <= n :: HasRoom(b, times, i, n)
  {
    var best := FoundIsLeastRoom(b, times, n);
    assert Admits(b, times, n) <==> Found(b, times, n) >= 1.0;
    if !Admits(b, times, n) {
      assert !HasRoom(b, times, best, n);
    }
  }

  /** ... where the room of a window is the capacity plus what its elapsed time refills, less what
      was admitted in it. */
  lemma RoomIs(b: Bucket, times: seq<real>, i: nat, n: nat)
    requires i <= n < |times|
    ensures Room(b, times, i, n)
            == b.capacity + b.rate * Elapsed(times, i, n) - Count(Decisions(b, times), i, n) as real
  {
    GainedIsRateTimesElapsed(b, times, i, n);
  }

  predicate NonDecreasing(times: seq<real>) {
    forall i, j | 0 <= i <= j < |times| :: times[i] <= times[j]
  }

  lemma {:induction false} ElapsedIsDifference(times: seq<real>, i: nat, j: nat)
    requires i <= j < |times| && NonDecreasing(times)
    ensures Elapsed(times, i, j) == times[j] - times[i]
  {
    if i < j { ElapsedIsDifference(times, i, j - 1); }
  }

  /** What a rate refills over a length of time. */
  function Refilled(rate: real, length: real): real {
    rate * length
  }

  lemma GainedInTime(b: Bucket, times: seq<real>, i: nat, n: nat, rate: real, length: real)
    requires i <= n < |times| && length == Elapsed(times, i, n) && rate == b.rate
    ensures Gained(b, times, i, n) == Refilled(rate, length)
  {
    GainedIsRateTimesElapsed(b, times, i, n);
    assert b.rate * Elapsed(times, i, n) == rate * length;
  }

  /** A window has room when what was admitted in it and one more stay within the capacity and what it
      has gained. */
  lemma RoomOfGained(b: Bucket, times: seq<real>, i: nat, n: nat, admitted: nat, gained: real)
    requires i <= n < |times| && gained == Gained(b, times, i, n) && admitted == Count(Decisions(b, times), i, n)
    ensures HasRoom(b, times, i, n) <==> admitted as real + 1.0 <= b.capacity + gained
  {
  }

  /** Nothing is admitted without room, for any answers to any requests. */
  ghost predicate WithinWindows(capacity: real, rate: real, times: seq<real>, d: seq<bool>)
    requires |d| == |times|
  {
    forall i, n | 0 <= i <= n < |d| && d[n] :: WithinWindow(capacity, rate, times, d, i, n)
  }

  predicate WithinWindow(capacity: real, rate: real, times: seq<real>, d: seq<bool>, i: nat, n: nat)
    requires i <= n < |d| == |times|
  {
    Count(d, i, n) as real + 1.0 <= capacity + rate * Elapsed(times, i, n)
  }

  lemma BucketStaysWithinWindows(b: Bucket, times: seq<real>)
    requires b.rate >= 0.0 && b.tokens == b.capacity
    ensures WithinWindows(b.capacity, b.rate, times, Decisions(b, times))
  {
    var d := Decisions(b, times);
    forall i, n | 0 <= i <= n < |d| && d[n] ensures WithinWindow(b.capacity, b.rate, times, d, i, n) {
      assert HasRoom(b, times, i, n) by { AdmitsIffEveryWindowHasRoom(b, times, n); }
      RoomLeft(b, times, i, n);
    }
  }

  lemma RoomLeft(b: Bucket, times: seq<real>, i: nat, n: nat)
    requires i <= n < |times| && HasRoom(b, times, i, n)
    ensures WithinWindow(b.capacity, b.rate, times, Decisions(b, times), i, n)
  {
    RoomIs(b, times, i, n);
  }

  /** The sliding-window bound: in any window of the given length, at most the capacity plus what it
      refills. */
  lemma SlidingWindow(b: Bucket, times: seq<real>, i: nat, j: nat, length: real)
    requires i <= j <= |times| && NonDecreasing(times) && length >= 0.0
    requires i < j ==> times[j - 1] - times[i] <= length
    requires b.capacity >= 0.0 && b.rate >= 0.0 && b.tokens == b.capacity
    ensures Count(Decisions(b, times), i, j) as real <= b.capacity + b.rate * length
  {
    BucketStaysWithinWindows(b, times);
    WindowsSlide(b.capacity, b.rate, times, Decisions(b, times), i, j, length);
  }

  lemma {:induction false} WindowsSlide(capacity: real, rate: real, times: seq<real>, d: seq<bool>,
                                        i: nat, j: nat, length: real)
    requires |d| == |times| && WithinWindows(capacity, rate, times, d)
    requires i <= j <= |times| && NonDecreasing(times) && length >= 0.0
    requires i < j ==> times[j - 1] - times[i] <= length
    requires capacity >= 0.0 && rate >= 0.0
    ensures Count(d, i, j) as real <= capacity + rate * length
  {
    if i == j {
      ScaleUp(rate, 0.0, length);
    } else if d[j - 1] {
      assert WithinWindow(capacity, rate, times, d, i, j - 1);
      ElapsedIsDifference(times, i, j - 1);
      ScaleUp(rate, Elapsed(times, i, j - 1), length);
    } else {
      assert i < j - 1 ==> times[j - 2] <= times[j - 1];
      WindowsSlide(capacity, rate, times, d, i, j - 1, length);
    }
  }

  /** The tokens never leave their range, whatever the clock does. */
  lemma {:induction false} TokensStayInRange(b: Bucket, times: seq<real>, n: nat)
    requires n <= |times| && 0.0 <= b.tokens <= b.capacity && b.rate >= 0.0
    ensures 0.0 <= After(b, times, n).tokens <= b.capacity
  {
    if n > 0 {
      TokensStayInRange(b, times, n - 1);
      ParametersStay(b, times, n - 1);
      ScaleUp(b.rate, 0.0, Max(0.0, times[n - 1] - After(b, times, n - 1).updated));
    }
  }

  /** A clock that steps back is paid for twice: two admissions at one instant from a bucket of
      one. */
  lemma BackwardClockOverAdmits()
    ensures var b := Full(1.0, 1.0, 10.0);
            var times := [10.0, 0.0, 10.0];
            Admits(b, times, 0) && !Admits(b, times, 1) && Admits(b, times, 2)
  {
    var b := Full(1.0, 1.0, 10.0);
    var times := [10.0, 0.0, 10.0];
    assert After(b, times, 0) == b;
    assert After(b, times, 1) == Bucket(1.0, 1.0, 0.0, 10.0);
    assert After(b, times, 2) == Bucket(1.0, 1.0, 0.0, 0.0);
  }

  // ---- The retry hint ------------------------------------------------------------------------

  /** Seconds until a token is there, as a real. */
  function Wait(b: Bucket): real
    requires b.rate > 0.0
  {
    (1.0 - b.tokens) / b.rate
  }

  /** Does rounding lose the last sliver of the wait? */
  predicate Sliver(x: real) {
    x >= 1.0 && 0.0 < x - x.Floor as real < 0.001
  }

  /** The rounding on its own. */
  lemma Rounding(x: real)
    ensures WholeSeconds(x) as real >= x <==> !Sliver(x)
    ensures WholeSeconds(x) as real > x - 0.001
  {
    if x >= 1.0 {
      var m, f := (x + 0.999).Floor, x.Floor;
      assert WholeSeconds(x) == m;
      assert f <= m <= f + 1;
      assert m == f <==> x - f as real < 0.001;
    }
  }

  lemma RoundingIsLeast(x: real, n: int)
    requires n >= 1 && n as real >= x
    ensures WholeSeconds(x) <= n
  {
  }

  /** Waiting `n` seconds against waiting long enough. */
  lemma WaitTimesRate(b: Bucket, n: real)
    requires b.rate > 0.0
    ensures b.tokens + n * b.rate == 1.0 + (n - Wait(b)) * b.rate
    ensures b.tokens + n * b.rate >= 1.0 <==> n >= Wait(b)
  {
    var x := Wait(b);
    assert x * b.rate == 1.0 - b.tokens;
    Distribute(b.rate, n, -x);
    if n >= x { ScaleUp(b.rate, 0.0, n - x); }
  }

  /** The hint never overstates: no smaller positive whole number of seconds would have sufficed. */
  lemma RetryIsNeverTooLong(b: Bucket, n: int)
    requires b.rate > 0.0 && n >= 1 && b.tokens + n as real * b.rate >= 1.0
    ensures RetryAfter(b) <= n
  {
    WaitTimesRate(b, n as real);
    RoundingIsLeast(Wait(b), n);
  }

  /** What the bucket holds once the hint has been waited out. */
  lemma AfterWaiting(b: Bucket)
    requires b.rate > 0.0
    ensures var n := RetryAfter(b) as real;
            n > 0.0 && Refill(b, b.updated + n) == Min(b.capacity, b.tokens + n * b.rate)
  {
  }

  lemma AdmitsWhenRefilled(b: Bucket, now: real)
    ensures Consume(b, now).1 <==> Refill(b, now) >= 1.0
  {
  }

  /** Waiting the hint out gets a token exactly when rounding lost no sliver. */
  lemma WaitingSuffices(b: Bucket)
    requires b.rate > 0.0 && b.capacity >= 1.0
    ensures Consume(b, b.updated + RetryAfter(b) as real).1 <==> !Sliver(Wait(b))
  {
    var n := RetryAfter(b) as real;
    AdmitsWhenRefilled(b, b.updated + n);
    assert Refill(b, b.updated + n) >= 1.0 <==> b.tokens + n * b.rate >= 1.0 by { AfterWaiting(b); }
    WaitTimesRate(b, n);
    Rounding(Wait(b));
  }

  /** ... and what is missing otherwise is less than a thousandth of a second's refill. */
  lemma ShortfallIsSmall(b: Bucket)
    requires b.rate > 0.0 && b.capacity >= 1.0
    ensures Refill(b, b.updated + RetryAfter(b) as real) > 1.0 - 0.001 * b.rate
  {
    AfterWaiting(b);
    Rounding(Wait(b));
    Shortfall(b.tokens, b.rate, Wait(b), RetryAfter(b) as real);
  }

  lemma Shortfall(tokens: real, rate: real, x: real, n: real)
    requires rate > 0.0 && x == (1.0 - tokens) / rate && n > x - 0.001
    ensures tokens + n * rate > 1.0 - 0.001 * rate
  {
    var d := n - x + 0.001;
    assert d * rate > 0.0;
    assert x * rate == 1.0 - tokens;
    assert d * rate == n * rate - x * rate + 0.001 * rate;
  }

  /** At one token a second or faster the hint always suffices. */
  lemma FastRatesNeverFallShort(b: Bucket)
    requires b.rate >= 1.0 && b.tokens >= 0.0 && b.capacity >= 1.0
    ensures Consume(b, b.updated + RetryAfter(b) as real).1
  {
    WaitTimesRate(b, 1.0);
    WaitingSuffices(b);
  }

  /** The sliver is reachable: a client refused at 0.9995 s waits the second it was told to, and is
      refused again. */
  lemma ToldToWaitAndRefusedAgain()
    ensures var b := Full(1.0, 0.5, 0.0);
            var times := [0.0, 0.9995, 1.9995];
            && Admits(b, times, 0) && !Admits(b, times, 1)
            && RetryAfter(After(b, times, 2)) == 1
            && !Admits(b, times, 2)
  {
    var b := Full(1.0, 0.5, 0.0);
    var times := [0.0, 0.9995, 1.9995];
    assert After(b, times, 0) == b;
    assert After(b, times, 1) == Bucket(1.0, 0.5, 0.0, 0.0);
    assert After(b, times, 2) == Bucket(1.0, 0.5, 0.49975, 0.9995);
  }
}
