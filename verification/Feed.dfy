/** Reconnect control: backoff, token bucket, and the loop that composes them. Time is in seconds. */
module Feed {
  import opened Collections
  import opened Model

  const STABILITY_WINDOW: real := 30.0

  const U32_MAX: nat := 0xFFFF_FFFF
  const U64_MAX: nat := 0xFFFF_FFFF_FFFF_FFFF

  function Pow2(n: nat): (r: nat)
    ensures r > 0
  {
    if n == 0 then 1 else 2 * Pow2(n - 1)
  }

  function Min(a: real, b: real): real {
    if a <= b then a else b
  }

  // ---------------------------------------------------------------- backoff

  /** `1u64.checked_shl(attempt)` saturated, then capped at 30. */
  function DelaySecs(attempt: nat): nat {
    var secs := if attempt < 64 then Pow2(attempt) else U64_MAX;
    if secs <= 30 then secs else 30
  }

  function NextAttempt(attempt: nat): nat {
    if attempt < U32_MAX then attempt + 1 else U32_MAX
  }

  /** Whether a connection made at `connectedAt` and judged at `now` was held long enough. */
  predicate Stable(connectedAt: real, now: real) {
    Elapsed(now, connectedAt) > STABILITY_WINDOW
  }

  class Backoff {
    var attempt: nat

    constructor ()
      ensures attempt == 0
    {
      attempt := 0;
    }

    method NextDelay() returns (delay: real)
      modifies this
      ensures delay == DelaySecs(old(attempt)) as real
      ensures attempt == NextAttempt(old(attempt))
    {
      var secs := if attempt < 64 then Pow2(attempt) else U64_MAX;
      var capped := if secs <= 30 then secs else 30;
      attempt := if attempt < U32_MAX then attempt + 1 else U32_MAX;
      delay := capped as real;
    }

    /** `multiplier` is the random draw. */
    static method Jittered(delay: real, multiplier: real) returns (wait: real)
      requires 0.5 <= multiplier < 1.5
      ensures wait == delay * multiplier
    {
      wait := delay * multiplier;
    }

    method ResetIfStable(connectedAt: real, now: real)
      modifies this
      ensures attempt == if Stable(connectedAt, now) then 0 else old(attempt)
    {
      if Elapsed(now, connectedAt) > STABILITY_WINDOW {
        attempt := 0;
      }
    }
  }

  // ---------------------------------------------------------------- clock

  /** The current instant; sleeping takes at least as long as asked. */
  class Clock {
    var now: real

    constructor (start: real)
      ensures now == start
    {
      now := start;
    }

    /** Time goes by outside this loop's control. */
    method Pass(duration: real)
      requires duration >= 0.0
      modifies this
      ensures now == old(now) + duration
    {
      now := now + duration;
    }

    /** `late` is how much longer than asked the sleep takes. */
    method Sleep(duration: real, late: real)
      requires late >= 0.0
      modifies this
      ensures now == old(now) + (if duration >= 0.0 then duration else 0.0) + late
    {
      now := now + (if duration >= 0.0 then duration else 0.0) + late;
    }
  }

  // ---------------------------------------------------------------- token bucket

  /** A bucket's parameters and contents. */
  datatype Bucket = Bucket(capacity: real, rate: real, tokens: real, lastRefill: real)

  /** Tokens after `elapsed` seconds of refilling, never more than the capacity. */
  function Topped(tokens: real, elapsed: real, rate: real, capacity: real): real {
    Min(tokens + elapsed * rate, capacity)
  }

  function Refilled(b: Bucket, now: real): Bucket {
    b.(tokens := Topped(b.tokens, Elapsed(now, b.lastRefill), b.rate, b.capacity), lastRefill := now)
  }

  function Spent(b: Bucket): Bucket {
    b.(tokens := b.tokens - 1.0)
  }

  /** How long `acquire` asks to sleep when short of a token. */
  function Shortfall(b: Bucket): real
    requires b.rate > 0.0
  {
    (1.0 - b.tokens) / b.rate
  }

  /** The result of acquiring a token from instant `now`, a sleep being `late` if there is one. */
  datatype Acquired = Acquired(bucket: Bucket, now: real, slept: bool)

  function Acquire(b: Bucket, now: real, late: real): Acquired
    requires b.rate > 0.0
  {
    var first := Refilled(b, now);
    if first.tokens >= 1.0 then Acquired(Spent(first), now, false)
    else
      var later := now + Shortfall(first) + late;
      Acquired(Spent(Refilled(first, later)), later, true)
  }

  lemma ShortfallRefills(b: Bucket, later: real, late: real)
    requires b.rate > 0.0 && b.capacity >= 1.0 && b.tokens < 1.0 && late >= 0.0
    requires later == b.lastRefill + Shortfall(b) + late
    ensures Shortfall(b) > 0.0
    ensures Refilled(b, later).tokens >= 1.0
  {
    var wait := Shortfall(b);
    QuotientTimes(1.0 - b.tokens, b.rate);
    assert wait * b.rate == 1.0 - b.tokens;
    assert (wait + late) * b.rate >= wait * b.rate by {
      assert (wait + late) * b.rate == wait * b.rate + late * b.rate;
      assert late * b.rate >= 0.0;
    }
  }

  lemma QuotientTimes(x: real, r: real)
    requires r > 0.0
    ensures (x / r) * r == x
    ensures x > 0.0 ==> x / r > 0.0
  {
  }

  class TokenBucket {
    const capacity: real
    const refillPerSec: real
    var tokens: real
    var lastRefill: real

    function Value(): Bucket
      reads this
    {
      Bucket(capacity, refillPerSec, tokens, lastRefill)
    }

    constructor (capacity: real, refillPerSec: real, now: real)
      ensures Value() == Bucket(capacity, refillPerSec, capacity, now)
    {
      this.capacity := capacity;
      this.refillPerSec := refillPerSec;
      tokens := capacity;
      lastRefill := now;
    }

    method Refill(now: real)
      modifies this
      ensures Value() == Refilled(old(Value()), now)
    {
      var elapsed := Elapsed(now, lastRefill);
      tokens := Topped(tokens, elapsed, refillPerSec, capacity);
      lastRefill := now;
    }

    /**
     Loops until a token is there. With room for one token a single sleep is always enough, so the
     one value `late` stands for every sleep there could be.
     */
    method Take(clock: Clock, late: real) returns (slept: bool)
      requires refillPerSec > 0.0 && capacity >= 1.0 && late >= 0.0
      modifies this, clock
      ensures Acquired(Value(), clock.now, slept) == Acquire(old(Value()), old(clock.now), late)
    {
      slept := false;
      ghost var before, start := Value(), clock.now;
      ghost var first := Refilled(before, start);
      while true
        invariant !slept ==> Value() == before && clock.now == start
        invariant slept ==> first.tokens < 1.0 && Value() == first && clock.now == start + Shortfall(first) + late
        decreases !slept
      {
        Refill(clock.now);
        if tokens >= 1.0 {
          tokens := tokens - 1.0;
          assert slept ==> Value() == Spent(Refilled(first, start + Shortfall(first) + late));
          assert !slept ==> Value() == Spent(first);
          assert Acquired(Value(), clock.now, slept) == Acquire(before, start, late);
          return;
        }
        if slept {
          ShortfallRefills(first, clock.now, late);
          assert false;
        }
        var deficit := 1.0 - tokens;
        QuotientTimes(deficit, refillPerSec);
        clock.Sleep(deficit / refillPerSec, late);
        slept := true;
      }
    }
  }

  // ---------------------------------------------------------------- the reconnect loop

  /**
   What the world decides in one cycle: how long the connect attempt and the connection lasted, when
   within that the handshake completed if it did, the jitter, and how late each sleep ends.
   */
  datatype Weather = Weather(lasted: real, connectedAfter: Option<real>, jitter: real, late: real, acquireLate: real)

  predicate Possible(w: Weather) {
    && w.lasted >= 0.0
    && (w.connectedAfter.Some? ==> 0.0 <= w.connectedAfter.value <= w.lasted)
    && 0.5 <= w.jitter < 1.5
    && w.late >= 0.0 && w.acquireLate >= 0.0
  }

  datatype FeedState = FeedState(now: real, attempt: nat, bucket: Bucket)

  /** One cycle: when it attempted to connect, when it spent a token, what was left, and whether it had to wait. */
  datatype Cycle = Cycle(attemptedAt: real, spentAt: real, tokensLeft: real, slept: bool)

  function FeedStart(venue: Venue, now: real): FeedState {
    FeedState(now, 0, Bucket(venue.ConnectCapacity(), venue.ConnectRate(), venue.ConnectCapacity(), now))
  }

  /** The attempt counter the delay is taken from. */
  function JudgedAttempt(s: FeedState, w: Weather): nat {
    if w.connectedAfter.Some? && Stable(s.now + w.connectedAfter.value, s.now + w.lasted) then 0 else s.attempt
  }

  /** When the cycle's backoff sleep is over. */
  function WokenAt(s: FeedState, w: Weather): real {
    s.now + w.lasted + DelaySecs(JudgedAttempt(s, w)) as real * w.jitter + w.late
  }

  function FeedStep(s: FeedState, w: Weather): FeedState
    requires s.bucket.rate > 0.0
  {
    var taken := Acquire(s.bucket, WokenAt(s, w), w.acquireLate);
    FeedState(taken.now, NextAttempt(JudgedAttempt(s, w)), taken.bucket)
  }

  function CycleOf(s: FeedState, w: Weather): Cycle
    requires s.bucket.rate > 0.0
  {
    var taken := Acquire(s.bucket, WokenAt(s, w), w.acquireLate);
    Cycle(s.now, taken.now, taken.bucket.tokens, taken.slept)
  }

  /** The state after the first `i` cycles. */
  function FeedAt(start: FeedState, ws: seq<Weather>, i: nat): (s: FeedState)
    requires i <= |ws| && start.bucket.rate > 0.0
    ensures s.bucket.rate == start.bucket.rate && s.bucket.capacity == start.bucket.capacity
  {
    if i == 0 then start else FeedStep(FeedAt(start, ws, i - 1), ws[i - 1])
  }

  /** One turn of the loop: run a connection, judge it, back off, take a token. */
  method RunCycle(backoff: Backoff, bucket: TokenBucket, clock: Clock, w: Weather) returns (cycle: Cycle)
    requires Possible(w) && bucket.refillPerSec > 0.0 && bucket.capacity >= 1.0
    modifies backoff, bucket, clock
    ensures FeedState(clock.now, backoff.attempt, bucket.Value())
         == FeedStep(FeedState(old(clock.now), old(backoff.attempt), old(bucket.Value())), w)
    ensures cycle == CycleOf(FeedState(old(clock.now), old(backoff.attempt), old(bucket.Value())), w)
  {
    ghost var s := FeedState(clock.now, backoff.attempt, bucket.Value());
    var attemptedAt := clock.now;
    clock.Pass(w.lasted);
    if w.connectedAfter.Some? {
      backoff.ResetIfStable(attemptedAt + w.connectedAfter.value, clock.now);
    }
    assert backoff.attempt == JudgedAttempt(s, w);
    var delay := backoff.NextDelay();
    var wait := Backoff.Jittered(delay, w.jitter);
    clock.Sleep(wait, w.late);
    assert clock.now == WokenAt(s, w);
    var slept := bucket.Take(clock, w.acquireLate);
    cycle := Cycle(attemptedAt, clock.now, bucket.tokens, slept);
  }

  /** The first `n` cycles of the run from `start` in the weather `ws`. */
  function Trace(start: FeedState, ws: seq<Weather>, n: nat): (cycles: seq<Cycle>)
    requires n <= |ws| && start.bucket.rate > 0.0
    ensures |cycles| == n
  {
    if n == 0 then [] else Trace(start, ws, n - 1) + [CycleOf(FeedAt(start, ws, n - 1), ws[n - 1])]
  }

  /** The reconnect loop, for as many cycles as the world is given for. */
  method RunFeed(venue: Venue, clock: Clock, ws: seq<Weather>) returns (cycles: seq<Cycle>)
    requires forall i :: 0 <= i < |ws| ==> Possible(ws[i])
    modifies clock
    ensures var start := FeedStart(venue, old(clock.now));
            && cycles == Trace(start, ws, |ws|)
            && clock.now == FeedAt(start, ws, |ws|).now
  {
    var backoff := new Backoff();
    var bucket := new TokenBucket(venue.ConnectCapacity(), venue.ConnectRate(), clock.now);
    ghost var start := FeedStart(venue, clock.now);
    cycles := [];
    for i := 0 to |ws|
      invariant bucket.capacity == 5.0 && bucket.refillPerSec == venue.ConnectRate()
      invariant FeedState(clock.now, backoff.attempt, bucket.Value()) == FeedAt(start, ws, i)
      invariant cycles == Trace(start, ws, i)
    {
      var cycle := RunCycle(backoff, bucket, clock, ws[i]);
      cycles := cycles + [cycle];
    }
  }
}
