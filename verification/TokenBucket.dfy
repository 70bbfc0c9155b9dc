/** The lazy token bucket that limits a connection's orders
    (packages/networking/src/connection.ts), over real-valued clock readings. */
module TokenBucket {

  datatype Bucket = Bucket(capacity: real, refillPerSec: real, tokens: real, lastRefillAtMs: real)

  const MILLISECONDS_PER_SECOND := 1000.0

  function Max(a: real, b: real): real {
    if a > b then a else b
  }

  function Min(a: real, b: real): real {
    if a < b then a else b
  }

  predicate Sound(b: Bucket) {
    b.refillPerSec >= 0.0 && 0.0 <= b.tokens <= b.capacity
  }

  /** The bucket of a new connection. */
  function Fresh(ordersPerSecond: real, burstFactor: real, nowMs: real): (b: Bucket)
    requires ordersPerSecond >= 0.0 && burstFactor >= 0.0
    ensures Sound(b) && b.tokens == b.capacity <= ordersPerSecond * burstFactor
  {
    var capacity := (ordersPerSecond * burstFactor).Floor as real;
    assert ordersPerSecond * burstFactor >= 0.0;
    Bucket(capacity, ordersPerSecond, capacity, nowMs)
  }

  /** What the time between two readings refills. */
  function Earned(from: real, nowMs: real, rate: real): real {
    Max(0.0, (nowMs - from) / MILLISECONDS_PER_SECOND) * rate
  }

  function Refill(b: Bucket, nowMs: real): real {
    Min(b.capacity, b.tokens + Earned(b.lastRefillAtMs, nowMs, b.refillPerSec))
  }

  predicate Grants(b: Bucket, nowMs: real) {
    Refill(b, nowMs) >= 1.0
  }

  function Taken(b: Bucket, nowMs: real): Bucket {
    b.(tokens := if Grants(b, nowMs) then Refill(b, nowMs) - 1.0 else Refill(b, nowMs), lastRefillAtMs := nowMs)
  }

  class Connection {
    var capacity: real
    var refillPerSec: real
    var tokens: real
    var lastRefillAtMs: real

    ghost function RateBucket(): Bucket
      reads this
    {
      Bucket(capacity, refillPerSec, tokens, lastRefillAtMs)
    }

    constructor (ordersPerSecond: real, burstFactor: real, nowMs: real)
      requires ordersPerSecond >= 0.0 && burstFactor >= 0.0
      ensures RateBucket() == Fresh(ordersPerSecond, burstFactor, nowMs)
    {
      capacity := (ordersPerSecond * burstFactor).Floor as real;
      refillPerSec := ordersPerSecond;
      tokens := (ordersPerSecond * burstFactor).Floor as real;
      lastRefillAtMs := nowMs;
    }

    method TakeToken(nowMs: real) returns (granted: bool)
      modifies this
      ensures RateBucket() == Taken(old(RateBucket()), nowMs)
      ensures granted <==> Grants(old(RateBucket()), nowMs)
    {
      var elapsedSec := Max(0.0, (nowMs - lastRefillAtMs) / MILLISECONDS_PER_SECOND);
      tokens := Min(capacity, tokens + elapsedSec * refillPerSec);
      lastRefillAtMs := nowMs;
      if tokens < 1.0 {
        return false;
      }
      tokens := tokens - 1.0;
      return true;
    }
  }

  // Runs ---------------------------------------------------------------------

  function After(b: Bucket, clock: seq<real>): Bucket
    decreases |clock|
  {
    if clock == [] then b else After(Taken(b, clock[0]), clock[1..])
  }

  /** Tokens granted over a run of clock readings. */
  function Granted(b: Bucket, clock: seq<real>): nat
    decreases |clock|
  {
    if clock == [] then 0 else (if Grants(b, clock[0]) then 1 else 0) + Granted(Taken(b, clock[0]), clock[1..])
  }

  /** How far the clock moved forward in all, steps back not counted. */
  function Forward(from: real, clock: seq<real>): (f: real)
    ensures f >= 0.0
    decreases |clock|
  {
    if clock == [] then 0.0 else Max(0.0, clock[0] - from) + Forward(clock[0], clock[1..])
  }

  /** What a run refills, reading by reading. */
  function EarnedOver(from: real, clock: seq<real>, rate: real): real
    decreases |clock|
  {
    if clock == [] then 0.0 else Earned(from, clock[0], rate) + EarnedOver(clock[0], clock[1..], rate)
  }

  lemma EarnedIsNonNegative(from: real, nowMs: real, rate: real)
    requires rate >= 0.0
    ensures Earned(from, nowMs, rate) >= 0.0
  {
    Product(Max(0.0, (nowMs - from) / MILLISECONDS_PER_SECOND), rate);
  }

  lemma Product(a: real, b: real)
    requires a >= 0.0 && b >= 0.0
    ensures a * b >= 0.0
  {
  }

  /** One call: the level stays in range, and a granted token is paid for. */
  lemma TakeIsPaidFor(b: Bucket, nowMs: real)
    requires Sound(b)
    ensures Sound(Taken(b, nowMs))
    ensures (if Grants(b, nowMs) then 1.0 else 0.0) + Taken(b, nowMs).tokens
         <= b.tokens + Earned(b.lastRefillAtMs, nowMs, b.refillPerSec)
  {
    EarnedIsNonNegative(b.lastRefillAtMs, nowMs, b.refillPerSec);
  }

  /** After every run, whatever the clock does, the level stays between zero and the capacity. */
  lemma {:induction false} LevelStaysInRange(b: Bucket, clock: seq<real>)
    requires Sound(b)
    ensures Sound(After(b, clock)) && After(b, clock).capacity == b.capacity
    ensures After(b, clock).refillPerSec == b.refillPerSec
    decreases |clock|
  {
    if clock != [] {
      TakeIsPaidFor(b, clock[0]);
      LevelStaysInRange(Taken(b, clock[0]), clock[1..]);
    }
  }

  /** Tokens granted are paid for by the level and the time gone by. */
  lemma {:induction false} GrantedIsPaidFor(b: Bucket, clock: seq<real>)
    requires Sound(b)
    ensures (Granted(b, clock) as real) + After(b, clock).tokens
         <= b.tokens + EarnedOver(b.lastRefillAtMs, clock, b.refillPerSec)
    decreases |clock|
  {
    if clock != [] {
      TakeIsPaidFor(b, clock[0]);
      GrantedIsPaidFor(Taken(b, clock[0]), clock[1..]);
    }
  }

  lemma Distribute(x: real, y: real, rate: real)
    ensures x / MILLISECONDS_PER_SECOND * rate + y / MILLISECONDS_PER_SECOND * rate == (x + y) / MILLISECONDS_PER_SECOND * rate
  {
  }

  /** What a run earns is the rate times the clock's forward moves. */
  lemma {:induction false} EarnedIsProportional(from: real, clock: seq<real>, rate: real)
    ensures EarnedOver(from, clock, rate) == Forward(from, clock) / MILLISECONDS_PER_SECOND * rate
    decreases |clock|
  {
    if clock != [] {
      EarnedIsProportional(clock[0], clock[1..], rate);
      Distribute(Max(0.0, clock[0] - from), Forward(clock[0], clock[1..]), rate);
      assert Max(0.0, (clock[0] - from) / MILLISECONDS_PER_SECOND) == Max(0.0, clock[0] - from) / MILLISECONDS_PER_SECOND;
    }
  }

  lemma FirstOfWindow(b: Bucket, window: seq<real>)
    requires Sound(b) && window != []
    ensures Granted(b, window) as real <= b.capacity + EarnedOver(window[0], window[1..], b.refillPerSec)
  {
    var b1 := Taken(b, window[0]);
    TakeIsPaidFor(b, window[0]);
    GrantedIsPaidFor(b1, window[1..]);
    LevelStaysInRange(b1, window[1..]);
  }

  /** Over any window of any run, for any clock: at most the capacity plus what the window earns. */
  lemma WindowBound(b: Bucket, before: seq<real>, window: seq<real>)
    requires Sound(b) && window != []
    ensures Granted(After(b, before), window) as real <= b.capacity + EarnedOver(window[0], window[1..], b.refillPerSec)
  {
    LevelStaysInRange(b, before);
    FirstOfWindow(After(b, before), window);
  }

  predicate NeverStepsBack(clock: seq<real>) {
    forall k :: 0 < k < |clock| ==> clock[k - 1] <= clock[k]
  }

  /** Seconds from the first reading to the last. */
  function Seconds(clock: seq<real>): real
    requires clock != []
  {
    (clock[|clock| - 1] - clock[0]) / MILLISECONDS_PER_SECOND
  }

  lemma {:induction false} ForwardOfMonotone(clock: seq<real>)
    requires clock != [] && NeverStepsBack(clock)
    ensures Forward(clock[0], clock[1..]) == clock[|clock| - 1] - clock[0]
    decreases |clock|
  {
    if |clock| > 1 {
      assert clock[0] <= clock[1];
      forall k | 0 < k < |clock[1..]| ensures clock[1..][k - 1] <= clock[1..][k] {
        assert clock[k] <= clock[k + 1];
      }
      ForwardOfMonotone(clock[1..]);
    }
  }

  /** With a clock that never steps back, a window earns its rate times its length. */
  lemma EarnedInWindowTime(window: seq<real>, rate: real)
    requires window != [] && NeverStepsBack(window)
    ensures EarnedOver(window[0], window[1..], rate) == Seconds(window) * rate
  {
    EarnedIsProportional(window[0], window[1..], rate);
    ForwardOfMonotone(window);
  }

  /** The limiter's bound on one window: the capacity plus the rate times the seconds it spans. */
  predicate KeepsBound(b: Bucket, window: seq<real>) {
    window != [] ==> Granted(b, window) as real <= b.capacity + Seconds(window) * b.refillPerSec
  }

  lemma BoundFromEarnings(b: Bucket, window: seq<real>, earned: real)
    requires window != [] && Granted(b, window) as real <= b.capacity + earned
    requires earned == Seconds(window) * b.refillPerSec
    ensures KeepsBound(b, window)
  {
  }

  /** With a clock that never steps back the bound holds from every sound bucket. */
  lemma MonotoneWindowBound(b: Bucket, window: seq<real>)
    requires Sound(b) && NeverStepsBack(window)
    ensures KeepsBound(b, window)
  {
    if window != [] {
      FirstOfWindow(b, window);
      EarnedInWindowTime(window, b.refillPerSec);
      BoundFromEarnings(b, window, EarnedOver(window[0], window[1..], b.refillPerSec));
    }
  }

  /** So it does at any point of any run; capacity and rate never change. */
  lemma LaterWindowBound(b: Bucket, before: seq<real>, window: seq<real>)
    requires Sound(b) && NeverStepsBack(window)
    ensures KeepsBound(After(b, before), window)
    ensures After(b, before).capacity == b.capacity && After(b, before).refillPerSec == b.refillPerSec
  {
    LevelStaysInRange(b, before);
    MonotoneWindowBound(After(b, before), window);
  }

  lemma MonotoneSliceBound(b: Bucket, clock: seq<real>, i: nat, j: nat)
    requires Sound(b) && NeverStepsBack(clock) && i < j <= |clock|
    ensures KeepsBound(b, clock[i..j])
  {
    var window := clock[i..j];
    forall k | 0 < k < |window| ensures window[k - 1] <= window[k] {
      assert clock[i + k - 1] <= clock[i + k];
    }
    MonotoneWindowBound(b, window);
  }

  /** A rate so high that one step back from `x` to `y` outweighs a capacity of one. */
  function RateAgainst(x: real, y: real): real
    requires y < x
  {
    2000.0 / (x - y)
  }

  lemma StepBackOutweighs(x: real, y: real)
    requires y < x
    ensures RateAgainst(x, y) >= 0.0 && (x - y) / 2000.0 >= 0.0
    ensures (y - x) / MILLISECONDS_PER_SECOND * RateAgainst(x, y) == -2.0
    ensures RateAgainst(x, y) * ((x - y) / 2000.0) == 1.0
  {
    var d := x - y;
    assert d * RateAgainst(x, y) == 2000.0;
    assert (y - x) * RateAgainst(x, y) == -(d * RateAgainst(x, y));
  }

  lemma StepBackBreaksBound(b: Bucket, x: real, y: real)
    requires y < x && b.capacity == 1.0 && b.refillPerSec == RateAgainst(x, y)
    ensures !KeepsBound(b, [x, y])
  {
    StepBackOutweighs(x, y);
  }

  /** The bound on every window of the clock, from every sound bucket. */
  ghost predicate BoundFromEverySoundBucket(clock: seq<real>) {
    forall b, i, j :: Sound(b) && 0 <= i < j <= |clock| ==> KeepsBound(b, clock[i..j])
  }

  /** The bound holds on every window of a clock, from every sound bucket, exactly when the clock never steps back. */
  lemma BoundIffClockNeverStepsBack(clock: seq<real>)
    ensures BoundFromEverySoundBucket(clock) <==> NeverStepsBack(clock)
  {
    if NeverStepsBack(clock) {
      forall b, i, j | Sound(b) && 0 <= i < j <= |clock| ensures KeepsBound(b, clock[i..j]) {
        MonotoneSliceBound(b, clock, i, j);
      }
    }
    if k :| 0 < k < |clock| && clock[k] < clock[k - 1] {
      var b := Bucket(1.0, RateAgainst(clock[k - 1], clock[k]), 0.0, 0.0);
      StepBackOutweighs(clock[k - 1], clock[k]);
      StepBackBreaksBound(b, clock[k - 1], clock[k]);
      assert clock[k - 1..k + 1] == [clock[k - 1], clock[k]];
      assert Sound(b) && !KeepsBound(b, clock[k - 1..k + 1]);
    }
  }

  /** A connection made with some rate and burst and then run over the clock, before its `i`-th reading. */
  function Reached(rate: real, burst: real, startMs: real, clock: seq<real>, i: nat): Bucket
    requires rate >= 0.0 && burst >= 0.0 && i <= |clock|
  {
    After(Fresh(rate, burst, startMs), clock[..i])
  }

  ghost predicate BoundOnEveryRun(clock: seq<real>) {
    forall rate, burst, startMs, i: nat, j: nat :: rate >= 0.0 && burst >= 0.0 && i < j <= |clock| ==>
      KeepsBound(Reached(rate, burst, startMs, clock, i), clock[i..j])
  }

  lemma FloorOfOne()
    ensures (1.0).Floor as real == 1.0
  {
  }

  /** So it is for the buckets connections really reach: over all rates, bursts and starting times. */
  lemma RunBoundIffClockNeverStepsBack(clock: seq<real>)
    ensures BoundOnEveryRun(clock) <==> NeverStepsBack(clock)
  {
    if NeverStepsBack(clock) {
      forall rate, burst, startMs, i: nat, j: nat | rate >= 0.0 && burst >= 0.0 && i < j <= |clock|
        ensures KeepsBound(Reached(rate, burst, startMs, clock, i), clock[i..j])
      {
        LevelStaysInRange(Fresh(rate, burst, startMs), clock[..i]);
        MonotoneSliceBound(Reached(rate, burst, startMs, clock, i), clock, i, j);
      }
    }
    if k :| 0 < k < |clock| && clock[k] < clock[k - 1] {
      ReachedBreaksBound(clock, k);
    }
  }

  lemma ReachedBreaksBound(clock: seq<real>, k: nat)
    requires 0 < k < |clock| && clock[k] < clock[k - 1]
    ensures !BoundOnEveryRun(clock)
  {
    var rate, burst := RateAgainst(clock[k - 1], clock[k]), (clock[k - 1] - clock[k]) / 2000.0;
    StepBackOutweighs(clock[k - 1], clock[k]);
    FloorOfOne();
    LevelStaysInRange(Fresh(rate, burst, 0.0), clock[..k - 1]);
    StepBackBreaksBound(Reached(rate, burst, 0.0, clock, k - 1), clock[k - 1], clock[k]);
    assert clock[k - 1..k + 1] == [clock[k - 1], clock[k]];
    assert !KeepsBound(Reached(rate, burst, 0.0, clock, k - 1), clock[k - 1..k + 1]);
  }

  /** A clock that steps back and returns mints a token the window's length does not pay for. */
  lemma ClockStepBackBreaksWindowBound()
    ensures var window := [0.0, -1000.0, 0.0];
            Seconds(window) == 0.0 && !KeepsBound(Fresh(1.0, 1.0, 0.0), window)
  {
    var b := Fresh(1.0, 1.0, 0.0);
    var b1 := Taken(b, 0.0);
    var b2 := Taken(b1, -1000.0);
    assert b == Bucket(1.0, 1.0, 1.0, 0.0) && b1 == Bucket(1.0, 1.0, 0.0, 0.0) && b2 == Bucket(1.0, 1.0, 0.0, -1000.0);
    assert [0.0, -1000.0, 0.0][1..] == [-1000.0, 0.0] && [-1000.0, 0.0][1..] == [0.0];
    assert Granted(b1, [-1000.0, 0.0]) == Granted(b2, [0.0]) == 1;
  }
}
