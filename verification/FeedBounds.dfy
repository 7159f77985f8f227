/**
 Bounds over every run of the reconnect loop. The amortised rate needs a potential on the attempt
 counter; the token bucket is shown to be slack by tying its contents to that counter.
 */
module FeedBounds {
  import opened Collections
  import opened Model
  import opened Feed

  ghost predicate AllPossible(ws: seq<Weather>) {
    forall i :: 0 <= i < |ws| ==> Possible(ws[i])
  }

  // ---------------------------------------------------------------- the delays

  lemma {:induction false} Pow2Grows(n: nat)
    requires n >= 5
    ensures Pow2(n) >= 32
  {
    if n > 5 {
      Pow2Grows(n - 1);
    } else {
      assert Pow2(5) == 2 * Pow2(4) == 4 * Pow2(3) == 8 * Pow2(2) == 16 * Pow2(1) == 32 * Pow2(0);
    }
  }

  /** 1, 2, 4, 8, 16 seconds and then 30 for ever. */
  lemma Delays(attempt: nat)
    ensures DelaySecs(attempt)
         == if attempt == 0 then 1 else if attempt == 1 then 2 else if attempt == 2 then 4
            else if attempt == 3 then 8 else if attempt == 4 then 16 else 30
  {
    assert Pow2(0) == 1 && Pow2(1) == 2 && Pow2(2) == 4;
    assert Pow2(3) == 2 * Pow2(2) && Pow2(4) == 2 * Pow2(3);
    if attempt >= 5 {
      Pow2Grows(attempt);
    }
  }

  // ---------------------------------------------------------------- amortised time per cycle

  /** Seconds the average cycle costs, and what each attempt count has saved up towards it. */
  const AMORTISED: real := 9.1

  function Potential(attempt: nat): (r: real)
    ensures -30.0 <= r <= 0.0
  {
    if attempt == 0 then 0.0
    else if attempt == 1 then -8.6
    else if attempt == 2 then -16.7
    else if attempt == 3 then -23.8
    else if attempt == 4 then -28.9
    else -30.0
  }

  lemma CycleTakes(s: FeedState, w: Weather)
    requires Possible(w) && s.bucket.rate > 0.0
    ensures FeedStep(s, w).now >= WokenAt(s, w)
    ensures WokenAt(s, w) - s.now >= 0.5 * DelaySecs(JudgedAttempt(s, w)) as real
    ensures JudgedAttempt(s, w) != s.attempt ==>
        WokenAt(s, w) - s.now > STABILITY_WINDOW + 0.5 * DelaySecs(JudgedAttempt(s, w)) as real
  {
    AtLeastHalf(DelaySecs(JudgedAttempt(s, w)) as real, w.jitter);
    AcquireTakesTime(s.bucket, WokenAt(s, w), w.acquireLate);
  }

  lemma AtLeastHalf(delay: real, jitter: real)
    requires delay >= 0.0 && jitter >= 0.5
    ensures delay * jitter >= 0.5 * delay
  {
    Product(delay, jitter - 0.5);
    assert delay * jitter == delay * (jitter - 0.5) + delay * 0.5;
  }

  lemma AcquireTakesTime(b: Bucket, now: real, late: real)
    requires b.rate > 0.0 && late >= 0.0
    ensures Acquire(b, now, late).now >= now
  {
    var first := Refilled(b, now);
    if first.tokens < 1.0 {
      QuotientTimes(1.0 - first.tokens, first.rate);
    }
  }

  lemma CyclePays(s: FeedState, w: Weather)
    requires Possible(w) && s.bucket.rate > 0.0
    ensures FeedStep(s, w).now - s.now >= AMORTISED + Potential(FeedStep(s, w).attempt) - Potential(s.attempt)
  {
    CycleTakes(s, w);
    Delays(JudgedAttempt(s, w));
  }

  /** From any state, `n` full cycles take at least 9.1 seconds each, less 30 once. */
  lemma {:induction false} CyclesTakeTime(start: FeedState, ws: seq<Weather>, i: nat, j: nat)
    requires AllPossible(ws) && start.bucket.rate > 0.0 && i <= j <= |ws|
    ensures FeedAt(start, ws, j).now - FeedAt(start, ws, i).now
         >= AMORTISED * (j - i) as real + Potential(FeedAt(start, ws, j).attempt) - Potential(FeedAt(start, ws, i).attempt)
    decreases j - i
  {
    if i < j {
      CyclesTakeTime(start, ws, i, j - 1);
      CyclePays(FeedAt(start, ws, j - 1), ws[j - 1]);
    }
  }

  /** The same read off the trace of a run: attempts `i` and `j` are this far apart. */
  lemma AttemptsAreSpread(start: FeedState, ws: seq<Weather>, i: nat, j: nat)
    requires AllPossible(ws) && start.bucket.rate > 0.0 && i <= j <= |ws|
    ensures FeedAt(start, ws, j).now - FeedAt(start, ws, i).now >= 9.1 * (j - i) as real - 30.0
  {
    CyclesTakeTime(start, ws, i, j);
  }

  /** A connection that fails at once, with the shortest jitter and no delay. */
  const QUICK_FAILURE: Weather := Weather(0.0, None, 0.5, 0.0, 0.0)

  /** One that connects at once and drops `eps` after it counts as stable. */
  function BarelyStable(eps: real): Weather {
    Weather(STABILITY_WINDOW + eps, Some(0.0), 0.5, 0.0, 0.0)
  }

  /** Four quick failures, then one barely stable connection, over and over. */
  function Thrash(eps: real, n: nat): seq<Weather> {
    seq(n, i => if i % 5 == 4 then BarelyStable(eps) else QUICK_FAILURE)
  }

  lemma QuickFailure(s: FeedState)
    requires Slack(s)
    ensures Slack(FeedStep(s, QUICK_FAILURE))
    ensures FeedStep(s, QUICK_FAILURE).attempt == NextAttempt(s.attempt)
    ensures FeedStep(s, QUICK_FAILURE).now == s.now + 0.5 * DelaySecs(s.attempt) as real
  {
    CycleKeepsSlack(s, QUICK_FAILURE);
  }

  lemma StableCycle(s: FeedState, eps: real)
    requires Slack(s) && eps > 0.0
    ensures var s' := FeedStep(s, BarelyStable(eps));
            Slack(s') && s'.attempt == 1 && s'.now == s.now + 30.5 + eps
  {
    CycleKeepsSlack(s, BarelyStable(eps));
    Delays(0);
  }

  /** One round of the pattern: five cycles in 45.5 seconds and a bit. */
  lemma ThrashRound(s: FeedState, eps: real)
    requires Slack(s) && s.attempt == 1 && eps > 0.0
    ensures var t := FeedStep(FeedStep(FeedStep(FeedStep(s, QUICK_FAILURE), QUICK_FAILURE), QUICK_FAILURE), QUICK_FAILURE);
            Slack(t) && t.now == s.now + 15.0
            && var u := FeedStep(t, BarelyStable(eps));
               Slack(u) && u.attempt == 1 && u.now == s.now + 5.0 * AMORTISED + eps
  {
    var a := FeedStep(s, QUICK_FAILURE);
    var b := FeedStep(a, QUICK_FAILURE);
    var c := FeedStep(b, QUICK_FAILURE);
    QuickFailure(s);
    QuickFailure(a);
    QuickFailure(b);
    QuickFailure(c);
    Delays(1);
    Delays(2);
    Delays(3);
    Delays(4);
    StableCycle(FeedStep(c, QUICK_FAILURE), eps);
  }

  lemma FiveSteps(start: FeedState, ws: seq<Weather>, i: nat)
    requires start.bucket.rate > 0.0 && i + 5 <= |ws|
    ensures FeedAt(start, ws, i + 5)
         == FeedStep(FeedStep(FeedStep(FeedStep(FeedStep(FeedAt(start, ws, i), ws[i]), ws[i + 1]), ws[i + 2]), ws[i + 3]), ws[i + 4])
  {
    assert FeedAt(start, ws, i + 2) == FeedStep(FeedAt(start, ws, i + 1), ws[i + 1]);
    assert FeedAt(start, ws, i + 4) == FeedStep(FeedAt(start, ws, i + 3), ws[i + 3]);
  }

  lemma RoundAt(start: FeedState, ws: seq<Weather>, i: nat, eps: real)
    requires start.bucket.rate > 0.0 && i + 5 <= |ws| && eps > 0.0
    requires ws[i] == ws[i + 1] == ws[i + 2] == ws[i + 3] == QUICK_FAILURE && ws[i + 4] == BarelyStable(eps)
    requires Slack(FeedAt(start, ws, i)) && FeedAt(start, ws, i).attempt == 1
    ensures var u := FeedAt(start, ws, i + 5);
            Slack(u) && u.attempt == 1 && u.now == FeedAt(start, ws, i).now + 5.0 * AMORTISED + eps
  {
    FiveSteps(start, ws, i);
    ThrashRound(FeedAt(start, ws, i), eps);
  }

  lemma ThrashPattern(eps: real, n: nat, k: nat)
    requires 5 * k + 5 <= n
    ensures var ws := Thrash(eps, n);
            && ws[5 * k] == ws[5 * k + 1] == ws[5 * k + 2] == ws[5 * k + 3] == QUICK_FAILURE
            && ws[5 * k + 4] == BarelyStable(eps)
  {
  }

  /**
   9.1 seconds is the exact rate: a feed that fails once and then thrashes spends no more per cycle
   on average than that and any `eps` per five.
   */
  lemma AmortisedRateIsExact(venue: Venue, now: real, eps: real, rounds: nat)
    requires eps > 0.0
    ensures var ws := [QUICK_FAILURE] + Thrash(eps, 5 * rounds);
            && AllPossible(ws)
            && FeedAt(FeedStart(venue, now), ws, 1 + 5 * rounds).now == now + 0.5 + Times(rounds, 5.0 * AMORTISED + eps)
  {
    var start := FeedStart(venue, now);
    var rest := Thrash(eps, 5 * rounds);
    QuickFailure(start);
    Delays(0);
    RoundsTake(FeedStep(start, QUICK_FAILURE), eps, rest, rounds, rounds);
    FeedAtCons(start, QUICK_FAILURE, rest, 5 * rounds);
    assert AllPossible([QUICK_FAILURE] + rest);
  }

  /** The first cycle, and then the others from where it led. */
  lemma {:induction false} FeedAtCons(start: FeedState, w: Weather, ws: seq<Weather>, i: nat)
    requires start.bucket.rate > 0.0 && i <= |ws|
    ensures FeedAt(start, [w] + ws, i + 1) == FeedAt(FeedStep(start, w), ws, i)
    decreases i
  {
    if i > 0 {
      FeedAtCons(start, w, ws, i - 1);
    } else {
      assert FeedAt(start, [w] + ws, 0) == start;
    }
  }

  /** `x` added `k` times. */
  function Times(k: nat, x: real): real {
    if k == 0 then 0.0 else Times(k - 1, x) + x
  }

  lemma {:induction false} RoundsTake(start: FeedState, eps: real, ws: seq<Weather>, rounds: nat, k: nat)
    requires Slack(start) && start.attempt == 1 && eps > 0.0 && k <= rounds && ws == Thrash(eps, 5 * rounds)
    ensures var s := FeedAt(start, ws, 5 * k);
            Slack(s) && s.attempt == 1 && s.now == start.now + Times(k, 5.0 * AMORTISED + eps)
    decreases k
  {
    if k > 0 {
      var i := 5 * (k - 1);
      RoundsTake(start, eps, ws, rounds, k - 1);
      ThrashPattern(eps, 5 * rounds, k - 1);
      RoundAt(start, ws, i, eps);
      assert 5 * k == i + 5;
    }
  }

  // ---------------------------------------------------------------- counting in a window

  ghost predicate NonDecreasing(times: seq<real>) {
    forall i, j :: 0 <= i < j < |times| ==> times[i] <= times[j]
  }

  /** How many of `times` fall in `[from, to]`. */
  function CountIn(times: seq<real>, from: real, to: real): nat {
    if times == [] then 0
    else CountIn(times[..|times| - 1], from, to) + if from <= times[|times| - 1] <= to then 1 else 0
  }

  /** What falls in a window is a run of consecutive times. */
  lemma {:induction false} WindowIsRun(times: seq<real>, from: real, to: real) returns (i: nat, j: nat)
    requires NonDecreasing(times)
    ensures i <= j <= |times| && CountIn(times, from, to) == j - i
    ensures forall k :: i <= k < j ==> from <= times[k] <= to
    ensures j < |times| ==> i == j || times[j] > to
  {
    if times == [] {
      i, j := 0, 0;
    } else {
      var n := |times| - 1;
      i, j := WindowIsRun(times[..n], from, to);
      if from <= times[n] <= to {
        if i == j {
          i := n;
        }
        j := n + 1;
      }
    }
  }

  /** If `n` consecutive times within `span` are never more than `most`, no window of that span has more. */
  lemma WindowBound(times: seq<real>, from: real, span: real, most: real)
    requires NonDecreasing(times) && most >= 0.0
    requires forall i, j :: 0 <= i <= j < |times| && times[j] - times[i] <= span ==> (j - i + 1) as real <= most
    ensures CountIn(times, from, from + span) as real <= most
  {
    var i, j := WindowIsRun(times, from, from + span);
    if i < j {
      assert times[j - 1] - times[i] <= span;
    }
  }

  // ---------------------------------------------------------------- the bucket is slack

  /** Fewest tokens left after a spend, by the attempt count that follows it. */
  function TokensLeft(attempt: nat): real {
    if attempt == 0 then 5.0 else if attempt == 2 || attempt == 3 then 3.5 else 4.0
  }

  /** The bucket was refilled at the last spend and has at least what the attempt count promises. */
  ghost predicate Slack(s: FeedState) {
    && s.bucket.capacity == 5.0 && s.bucket.rate >= 0.5
    && s.bucket.lastRefill == s.now
    && TokensLeft(s.attempt) <= s.bucket.tokens <= 5.0
  }

  /** A cycle finds at least 4.5 tokens, so acquiring one never sleeps. */
  lemma CycleKeepsSlack(s: FeedState, w: Weather)
    requires Possible(w) && Slack(s)
    ensures Refilled(s.bucket, WokenAt(s, w)).tokens >= 4.5
    ensures !CycleOf(s, w).slept
    ensures Slack(FeedStep(s, w))
  {
    CycleTakes(s, w);
    Delays(JudgedAttempt(s, w));
    AtLeastHalf(WokenAt(s, w) - s.now, s.bucket.rate);
  }

  lemma {:induction false} SlackThroughout(venue: Venue, now: real, ws: seq<Weather>, i: nat)
    requires AllPossible(ws) && i <= |ws|
    ensures Slack(FeedAt(FeedStart(venue, now), ws, i))
  {
    if i > 0 {
      SlackThroughout(venue, now, ws, i - 1);
      CycleKeepsSlack(FeedAt(FeedStart(venue, now), ws, i - 1), ws[i - 1]);
    }
  }

  lemma {:induction false} TraceAt(start: FeedState, ws: seq<Weather>, n: nat, i: nat)
    requires start.bucket.rate > 0.0 && i < n <= |ws|
    ensures Trace(start, ws, n)[i] == CycleOf(FeedAt(start, ws, i), ws[i])
    decreases n
  {
    if i < n - 1 {
      TraceAt(start, ws, n - 1, i);
    }
  }

  /** For every venue and in every run, backoff keeps the bucket at 4.5 tokens or more at each spend. */
  lemma BackoffDominatesBucket(venue: Venue, now: real, ws: seq<Weather>, i: nat)
    requires AllPossible(ws) && i < |ws|
    ensures var cycle := Trace(FeedStart(venue, now), ws, |ws|)[i];
            cycle.tokensLeft + 1.0 >= 4.5 && !cycle.slept
  {
    TraceAt(FeedStart(venue, now), ws, |ws|, i);
    SlackThroughout(venue, now, ws, i);
    CycleKeepsSlack(FeedAt(FeedStart(venue, now), ws, i), ws[i]);
  }

  // ---------------------------------------------------------------- the clock of any run

  /** No connection, or one that is over before it counts as stable. */
  predicate NeverStable(w: Weather) {
    w.connectedAfter.Some? ==> !Stable(w.connectedAfter.value, w.lasted)
  }

  /** How many attempts count against cycle `i`: those since the last stable connection, which counts itself. */
  function Counted(ws: seq<Weather>, i: nat): nat
    requires i <= |ws|
  {
    if i == 0 then 0 else if NeverStable(ws[i - 1]) then Counted(ws, i - 1) + 1 else 1
  }

  /** How long cycle `i` lasts: connection, jittered delay and late waking. */
  function Duration(ws: seq<Weather>, i: nat): real
    requires i < |ws|
  {
    ws[i].lasted + DelaySecs(if NeverStable(ws[i]) then Counted(ws, i) else 0) as real * ws[i].jitter + ws[i].late
  }

  function Durations(ws: seq<Weather>, i: nat): real
    requires i <= |ws|
  {
    if i == 0 then 0.0 else Durations(ws, i - 1) + Duration(ws, i - 1)
  }

  lemma CycleLasts(s: FeedState, w: Weather)
    requires Possible(w) && Slack(s)
    ensures FeedStep(s, w).now
         == s.now + w.lasted + DelaySecs(if NeverStable(w) then s.attempt else 0) as real * w.jitter + w.late
    ensures FeedStep(s, w).attempt == NextAttempt(if NeverStable(w) then s.attempt else 0)
  {
    CycleKeepsSlack(s, w);
  }

  /** Every run's clock and attempt count in closed form, bucket and all. */
  lemma {:induction false} EveryRun(venue: Venue, now: real, ws: seq<Weather>, i: nat)
    requires AllPossible(ws) && i <= |ws| && i <= U32_MAX
    ensures FeedAt(FeedStart(venue, now), ws, i).now == now + Durations(ws, i)
    ensures FeedAt(FeedStart(venue, now), ws, i).attempt == Counted(ws, i) <= i
  {
    hide FeedStep, Slack, DelaySecs;
    if i > 0 {
      EveryRun(venue, now, ws, i - 1);
      SlackThroughout(venue, now, ws, i - 1);
      CycleLasts(FeedAt(FeedStart(venue, now), ws, i - 1), ws[i - 1]);
    }
  }

  /** So every attempt and every spend of a token has its instant. */
  lemma EveryCycle(venue: Venue, now: real, ws: seq<Weather>, i: nat)
    requires AllPossible(ws) && i < |ws| && i < U32_MAX
    ensures var cycle := Trace(FeedStart(venue, now), ws, |ws|)[i];
            cycle.attemptedAt == now + Durations(ws, i) && cycle.spentAt == now + Durations(ws, i + 1)
  {
    TraceAt(FeedStart(venue, now), ws, |ws|, i);
    EveryRun(venue, now, ws, i);
    EveryRun(venue, now, ws, i + 1);
  }

  // ---------------------------------------------------------------- the bucket on its own

  /** A sleep for a token is no longer than it must be: at any moment before its end there is none. */
  lemma SleepsNoLonger(b: Bucket, now: real, later: real)
    requires b.rate > 0.0 && b.tokens <= b.capacity && b.lastRefill <= now <= later < Acquire(b, now, 0.0).now
    ensures Refilled(b, later).tokens < 1.0
  {
    var first := Refilled(b, now);
    var wait := Shortfall(first);
    QuotientTimes(1.0 - first.tokens, b.rate);
    assert first.tokens < 1.0 && later < now + wait;
    Product(now + wait - later, b.rate);
    NoTokenYet(b, now, later, wait);
  }

  lemma NoTokenYet(b: Bucket, now: real, later: real, wait: real)
    requires b.rate > 0.0 && b.lastRefill <= now <= later < now + wait
    requires wait * b.rate == 1.0 - Refilled(b, now).tokens && Refilled(b, now).tokens < 1.0
    ensures Refilled(b, later).tokens < 1.0
  {
    var x, y, z := now - b.lastRefill, later - now, now + wait - later;
    Distribute(b.rate, x, y);
    Distribute(b.rate, y, z);
    assert x + y == later - b.lastRefill && y + z == wait;
    assert b.rate * z > 0.0;
  }

  /** One call of `acquire`: how long after the last spend, and how late its sleep would end. */
  datatype Call = Call(gap: real, late: real)

  datatype Timed = Timed(bucket: Bucket, now: real)

  ghost predicate AllCalls(calls: seq<Call>) {
    forall i :: 0 <= i < |calls| ==> calls[i].gap >= 0.0 && calls[i].late >= 0.0
  }

  function AfterCall(t: Timed, c: Call): Timed
    requires t.bucket.rate > 0.0
  {
    var taken := Acquire(t.bucket, t.now + c.gap, c.late);
    Timed(taken.bucket, taken.now)
  }

  /** The bucket after the first `i` calls. */
  function BucketAt(start: Timed, calls: seq<Call>, i: nat): (t: Timed)
    requires i <= |calls| && start.bucket.rate > 0.0
    ensures t.bucket.rate == start.bucket.rate && t.bucket.capacity == start.bucket.capacity
  {
    if i == 0 then start else AfterCall(BucketAt(start, calls, i - 1), calls[i - 1])
  }

  ghost predicate InBounds(t: Timed) {
    && t.bucket.rate > 0.0 && t.bucket.capacity >= 1.0
    && 0.0 <= t.bucket.tokens <= t.bucket.capacity && t.bucket.lastRefill == t.now
  }

  /** Time only ever refills, and never past the capacity. */
  lemma RefillLaw(b: Bucket, now: real)
    requires b.rate > 0.0 && now >= b.lastRefill && b.tokens <= b.capacity
    ensures b.tokens <= Refilled(b, now).tokens <= b.capacity
    ensures Refilled(b, now).tokens <= b.tokens + b.rate * (now - b.lastRefill)
  {
    Product(now - b.lastRefill, b.rate);
  }

  lemma Product(x: real, y: real)
    requires x >= 0.0 && y >= 0.0
    ensures x * y >= 0.0 && x * y == y * x
  {
  }

  /** One call: still within bounds, and a token more than it refilled is gone. */
  lemma AcquireLaw(t: Timed, c: Call, rate: real)
    requires InBounds(t) && c.gap >= 0.0 && c.late >= 0.0 && rate == t.bucket.rate
    ensures InBounds(AfterCall(t, c)) && Paid(t, AfterCall(t, c), rate)
    ensures AfterCall(t, c).bucket.tokens <= t.bucket.capacity - 1.0
  {
    var first := Refilled(t.bucket, t.now + c.gap);
    RefillLaw(t.bucket, t.now + c.gap);
    if first.tokens < 1.0 {
      var later := t.now + c.gap + Shortfall(first) + c.late;
      ShortfallRefills(first, later, c.late);
      RefillLaw(first, later);
      Distribute(rate, c.gap, later - (t.now + c.gap));
    }
  }

  lemma Distribute(r: real, x: real, y: real)
    ensures r * x + r * y == r * (x + y)
  {
  }

  lemma {:induction false} BucketInBounds(start: Timed, calls: seq<Call>, i: nat)
    requires AllCalls(calls) && InBounds(start) && i <= |calls|
    ensures InBounds(BucketAt(start, calls, i))
    ensures i > 0 ==> BucketAt(start, calls, i).bucket.tokens <= start.bucket.capacity - 1.0
  {
    if i > 0 {
      BucketInBounds(start, calls, i - 1);
      AcquireLaw(BucketAt(start, calls, i - 1), calls[i - 1], start.bucket.rate);
    }
  }

  /** A history of bucket contents in which every step spends a token and refills no faster than the rate. */
  ghost predicate Lawful(states: seq<Timed>, rate: real, capacity: real) {
    && (forall i :: 0 <= i < |states| ==> 0.0 <= states[i].bucket.tokens)
    && (forall i :: 0 < i < |states| ==> states[i].bucket.tokens <= capacity - 1.0)
    && (forall i :: 0 < i < |states| ==> Paid(states[i - 1], states[i], rate))
  }

  ghost predicate Paid(before: Timed, after: Timed, rate: real) {
    && before.now <= after.now
    && after.bucket.tokens + 1.0 <= before.bucket.tokens + rate * (after.now - before.now)
  }

  lemma PaidAdds(rate: real, a: Timed, b: Timed, c: Timed, k: real)
    requires b.bucket.tokens + k <= a.bucket.tokens + rate * (b.now - a.now) && Paid(b, c, rate)
    ensures c.bucket.tokens + (k + 1.0) <= a.bucket.tokens + rate * (c.now - a.now)
  {
    Distribute(rate, b.now - a.now, c.now - b.now);
    assert (b.now - a.now) + (c.now - b.now) == c.now - a.now;
  }

  lemma {:induction false} TokensPayForSpends(states: seq<Timed>, rate: real, capacity: real, i: nat, j: nat)
    requires Lawful(states, rate, capacity) && i <= j < |states|
    ensures states[i].now <= states[j].now
    ensures states[j].bucket.tokens + (j - i) as real <= states[i].bucket.tokens + rate * (states[j].now - states[i].now)
    decreases j - i
  {
    if i < j {
      TokensPayForSpends(states, rate, capacity, i, j - 1);
      assert Paid(states[j - 1], states[j], rate);
      PaidAdds(rate, states[i], states[j - 1], states[j], (j - 1 - i) as real);
    }
  }

  function States(start: Timed, calls: seq<Call>): (states: seq<Timed>)
    requires start.bucket.rate > 0.0
    ensures |states| == |calls| + 1
  {
    seq(|calls| + 1, i requires 0 <= i <= |calls| => BucketAt(start, calls, i))
  }

  lemma StatesLawful(start: Timed, calls: seq<Call>)
    requires AllCalls(calls) && InBounds(start)
    ensures Lawful(States(start, calls), start.bucket.rate, start.bucket.capacity)
  {
    var states := States(start, calls);
    assert forall i :: 0 <= i < |states| ==> states[i] == BucketAt(start, calls, i);
    forall i | 0 <= i < |states|
      ensures 0.0 <= states[i].bucket.tokens
      ensures i > 0 ==> states[i].bucket.tokens <= start.bucket.capacity - 1.0 && Paid(states[i - 1], states[i], start.bucket.rate)
    {
      BucketInBounds(start, calls, i);
      if i > 0 {
        CallPaid(start, calls, i);
      }
    }
  }

  lemma CallPaid(start: Timed, calls: seq<Call>, i: nat)
    requires AllCalls(calls) && InBounds(start) && 0 < i <= |calls|
    ensures Paid(BucketAt(start, calls, i - 1), BucketAt(start, calls, i), start.bucket.rate)
  {
    BucketInBounds(start, calls, i - 1);
    AcquireLaw(BucketAt(start, calls, i - 1), calls[i - 1], start.bucket.rate);
  }

  /** When each call spent its token. */
  function SpendTimes(states: seq<Timed>): seq<real>
    requires states != []
  {
    Map(states[1..], (t: Timed) => t.now)
  }

  lemma LawfulWindow(states: seq<Timed>, rate: real, capacity: real, from: real, span: real, most: real)
    requires states != [] && Lawful(states, rate, capacity) && rate > 0.0 && capacity >= 1.0 && span >= 0.0
    requires most == capacity + rate * span
    ensures CountIn(SpendTimes(states), from, from + span) as real <= most
  {
    var times := SpendTimes(states);
    Product(rate, span);
    forall i, j | 0 <= i <= j < |times|
      ensures times[i] <= times[j] && (times[j] - times[i] <= span ==> (j - i + 1) as real <= most)
    {
      assert times[i] == states[i + 1].now && times[j] == states[j + 1].now;
      SpendsWithin(states, rate, capacity, i + 1, j + 1, span, most);
    }
    WindowBound(times, from, span, most);
  }

  lemma SpendsWithin(states: seq<Timed>, rate: real, capacity: real, i: nat, j: nat, span: real, most: real)
    requires Lawful(states, rate, capacity) && rate > 0.0 && 0 < i <= j < |states|
    requires most == capacity + rate * span
    ensures states[i].now <= states[j].now
    ensures states[j].now - states[i].now <= span ==> (j - i + 1) as real <= most
  {
    TokensPayForSpends(states, rate, capacity, i, j);
    if states[j].now - states[i].now <= span {
      Scale(rate, states[j].now - states[i].now, span);
      var earned, allowed := rate * (states[j].now - states[i].now), rate * span;
      assert states[j].bucket.tokens + (j - i) as real <= states[i].bucket.tokens + earned;
      assert states[i].bucket.tokens <= capacity - 1.0 && 0.0 <= states[j].bucket.tokens;
      assert (j - i + 1) as real == (j - i) as real + 1.0;
    }
  }

  lemma Scale(rate: real, x: real, y: real)
    requires rate > 0.0 && x <= y
    ensures rate * x <= rate * y
  {
    Product(rate, y - x);
    Distribute(rate, x, y - x);
    assert x + (y - x) == y;
  }

  /** Any stretch of time holds at most `capacity + rate * span` spends, whatever the calls. */
  lemma SpendsPerWindow(start: Timed, calls: seq<Call>, from: real, span: real, most: real)
    requires AllCalls(calls) && InBounds(start) && span >= 0.0
    requires most == start.bucket.capacity + start.bucket.rate * span
    ensures CountIn(SpendTimes(States(start, calls)), from, from + span) as real <= most
  {
    StatesLawful(start, calls);
    LawfulWindow(States(start, calls), start.bucket.rate, start.bucket.capacity, from, span, most);
  }

  /** A bucket that refills can ever yield a token exactly when it has room for one. */
  lemma TokenEverIffRoom(b: Bucket)
    requires b.rate > 0.0 && b.tokens <= b.capacity
    ensures b.capacity >= 1.0 <==> exists now :: now >= b.lastRefill && Refilled(b, now).tokens >= 1.0
  {
    if b.capacity >= 1.0 {
      if b.tokens >= 1.0 {
        RefillLaw(b, b.lastRefill);
        assert Refilled(b, b.lastRefill).tokens >= 1.0;
      } else {
        var later := b.lastRefill + Shortfall(b) + 0.0;
        ShortfallRefills(b, later, 0.0);
      }
    }
  }
}
