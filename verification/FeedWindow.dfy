/**
 The least time any number of reconnect cycles can take, and with it the most connection attempts a
 window can hold.
 */
module FeedWindow {
  import opened Collections
  import opened Model
  import opened Feed
  import opened FeedBounds

  // ---------------------------------------------------------------- the least time of n cycles

  /**
   The least time `n` cycles can take from an attempt count: each either fails at once and waits half
   its delay, or is held for the stability window and waits half the first delay.
   */
  function MinTime(n: nat, attempt: nat): real {
    if n == 0 then 0.0
    else Min(0.5 * DelaySecs(attempt) as real + MinTime(n - 1, NextAttempt(attempt)),
      STABILITY_WINDOW + 0.5 + MinTime(n - 1, 1))
  }

  /** No run is faster. */
  lemma {:induction false} CyclesTakeMinTime(start: FeedState, ws: seq<Weather>, i: nat, j: nat)
    requires AllPossible(ws) && start.bucket.rate > 0.0 && i <= j <= |ws|
    ensures FeedAt(start, ws, j).now - FeedAt(start, ws, i).now >= MinTime(j - i, FeedAt(start, ws, i).attempt)
    decreases j - i
  {
    if i < j {
      var s := FeedAt(start, ws, i);
      CycleTakes(s, ws[i]);
      Delays(0);
      CyclesTakeMinTime(start, ws, i + 1, j);
      assert FeedAt(start, ws, i + 1) == FeedStep(s, ws[i]);
    }
  }

  /** And some run comes within any `eps` of it. */
  lemma {:induction false} MinTimeIsApproached(start: FeedState, n: nat, eps: real) returns (ws: seq<Weather>)
    requires Slack(start) && eps > 0.0
    ensures |ws| == n && AllPossible(ws)
    ensures FeedAt(start, ws, n).now <= start.now + MinTime(n, start.attempt) + eps
    decreases n
  {
    if n == 0 {
      ws := [];
    } else {
      var w := FastestFirst(start, n, eps / 2.0);
      var rest := MinTimeIsApproached(FeedStep(start, w), n - 1, eps / 2.0);
      ws := [w] + rest;
      FeedAtCons(start, w, rest, n - 1);
    }
  }

  lemma FastestFirst(s: FeedState, n: nat, eps: real) returns (w: Weather)
    requires Slack(s) && n > 0 && eps > 0.0
    ensures Possible(w) && Slack(FeedStep(s, w))
    ensures FeedStep(s, w).now + MinTime(n - 1, FeedStep(s, w).attempt) <= s.now + MinTime(n, s.attempt) + eps
  {
    QuickFailure(s);
    StableCycle(s, eps);
    if 0.5 * DelaySecs(s.attempt) as real + MinTime(n - 1, NextAttempt(s.attempt)) <= STABILITY_WINDOW + 0.5 + MinTime(n - 1, 1) {
      w := QUICK_FAILURE;
    } else {
      w := BarelyStable(eps);
    }
  }

  /** A lower bound on the least time, growing by 45.5 seconds every five cycles. */
  function Least(n: nat, attempt: nat): real {
    var a := if attempt < 5 then attempt else 5;
    if n >= 5 then 45.5 + Least(n - 5, attempt)
    else if n == 0 then [-30.0, -17.0, -10.0, -4.0, 0.0, 0.0][a]
    else if n == 1 then [-16.5, -9.0, -2.0, 4.0, 8.0, 13.5][a]
    else if n == 2 then [-8.5, -1.0, 6.0, 12.0, 21.5, 21.5][a]
    else if n == 3 then [-0.5, 7.0, 14.0, 25.5, 29.5, 29.5][a]
    else [7.5, 15.0, 27.5, 33.5, 37.5, 37.5][a]
  }

  lemma {:induction false} LeastStep(n: nat, attempt: nat)
    requires n > 0
    ensures Least(n, attempt) <= 0.5 * DelaySecs(attempt) as real + Least(n - 1, NextAttempt(attempt))
    ensures Least(n, attempt) <= 30.5 + Least(n - 1, 1)
    decreases n
  {
    if n > 5 {
      LeastStep(n - 5, attempt);
    } else {
      Delays(attempt);
    }
  }

  lemma {:induction false} LeastIsLess(n: nat, attempt: nat)
    ensures Least(n, attempt) <= MinTime(n, attempt)
    decreases n
  {
    if n > 0 {
      LeastStep(n, attempt);
      LeastIsLess(n - 1, NextAttempt(attempt));
      LeastIsLess(n - 1, 1);
    }
  }

  /** 36 cycles take more than five minutes from any attempt count. */
  lemma ThirtySixCycles(attempt: nat)
    ensures MinTime(36, attempt) > 300.0
  {
    LeastIsLess(36, attempt);
    assert Least(36, attempt) == 45.5 + Least(31, attempt) == 91.0 + Least(26, attempt) == 136.5 + Least(21, attempt);
    assert Least(21, attempt) == 45.5 + Least(16, attempt) == 91.0 + Least(11, attempt) == 136.5 + Least(6, attempt);
    assert Least(6, attempt) == 45.5 + Least(1, attempt);
  }

  /** Four failures and a stable connection, as in `ThrashRound`. */
  lemma RoundAtMost(n: nat)
    ensures MinTime(n + 4, 1) <= 15.0 + MinTime(n, 5)
    ensures MinTime(n + 5, 1) <= 45.5 + MinTime(n, 1)
  {
    Delays(1);
    Delays(2);
    Delays(3);
    Delays(4);
    assert MinTime(n + 4, 1) <= 1.0 + MinTime(n + 3, 2) <= 3.0 + MinTime(n + 2, 3);
    assert MinTime(n + 2, 3) <= 4.0 + MinTime(n + 1, 4) <= 12.0 + MinTime(n, 5);
    assert MinTime(n + 5, 1) <= 1.0 + MinTime(n + 4, 2) <= 3.0 + MinTime(n + 3, 3);
    assert MinTime(n + 3, 3) <= 4.0 + MinTime(n + 2, 4) <= 12.0 + MinTime(n + 1, 5) <= 42.5 + MinTime(n, 1);
  }

  lemma FirstFailure(n: nat)
    ensures MinTime(n + 1, 0) <= 0.5 + MinTime(n, 1)
  {
    Delays(0);
  }

  /** 35 cycles from a fresh start need not. */
  lemma ThirtyFiveCycles()
    ensures MinTime(35, 0) <= 288.5
  {
    hide MinTime;
    FirstFailure(34);
    RoundAtMost(29);
    RoundAtMost(24);
    RoundAtMost(19);
    RoundAtMost(14);
    RoundAtMost(9);
    RoundAtMost(4);
    RoundAtMost(0);
    NoCycles();
  }

  lemma NoCycles()
    ensures MinTime(0, 5) == 0.0
  {
  }

  // ---------------------------------------------------------------- attempts per window

  function AttemptTimes(cycles: seq<Cycle>): seq<real> {
    Map(cycles, (c: Cycle) => c.attemptedAt)
  }

  lemma {:induction false} ClockAdvances(start: FeedState, ws: seq<Weather>, i: nat, j: nat)
    requires AllPossible(ws) && start.bucket.rate > 0.0 && i <= j <= |ws|
    ensures FeedAt(start, ws, i).now <= FeedAt(start, ws, j).now
    decreases j - i
  {
    if i < j {
      ClockAdvances(start, ws, i, j - 1);
      CycleTakes(FeedAt(start, ws, j - 1), ws[j - 1]);
    }
  }

  /** 36 cycles apart is more than five minutes apart. */
  lemma FarApart(start: FeedState, ws: seq<Weather>, i: nat, j: nat)
    requires AllPossible(ws) && start.bucket.rate > 0.0 && i + 36 <= j <= |ws|
    ensures FeedAt(start, ws, j).now - FeedAt(start, ws, i).now > 300.0
  {
    CyclesTakeMinTime(start, ws, i, i + 36);
    ThirtySixCycles(FeedAt(start, ws, i).attempt);
    ClockAdvances(start, ws, i + 36, j);
  }

  lemma AttemptsApart(start: FeedState, ws: seq<Weather>, i: nat, j: nat)
    requires AllPossible(ws) && start.bucket.rate > 0.0 && i <= j < |ws|
    ensures var times := AttemptTimes(Trace(start, ws, |ws|));
            times[j] >= times[i] && (times[j] - times[i] <= 300.0 ==> j - i < 36)
  {
    TraceAt(start, ws, |ws|, i);
    TraceAt(start, ws, |ws|, j);
    ClockAdvances(start, ws, i, j);
    if j - i >= 36 {
      FarApart(start, ws, i, j);
    }
  }

  /** No 300-second window of any run holds more than 36 connection attempts. */
  lemma AttemptsPerWindow(start: FeedState, ws: seq<Weather>, from: real)
    requires AllPossible(ws) && start.bucket.rate > 0.0
    ensures CountIn(AttemptTimes(Trace(start, ws, |ws|)), from, from + 300.0) <= 36
  {
    var times := AttemptTimes(Trace(start, ws, |ws|));
    forall i, j | 0 <= i <= j < |times|
      ensures times[i] <= times[j] && (times[j] - times[i] <= 300.0 ==> (j - i + 1) as real <= 36.0)
    {
      AttemptsApart(start, ws, i, j);
    }
    WindowBound(times, from, 300.0, 36.0);
  }

  lemma {:induction false} AllIn(times: seq<real>, from: real, to: real)
    requires forall i :: 0 <= i < |times| ==> from <= times[i] <= to
    ensures CountIn(times, from, to) == |times|
  {
    if times != [] {
      AllIn(times[..|times| - 1], from, to);
    }
  }

  lemma {:induction false} FeedAtPrefix(start: FeedState, ws: seq<Weather>, more: seq<Weather>, i: nat)
    requires start.bucket.rate > 0.0 && i <= |ws|
    ensures FeedAt(start, ws + more, i) == FeedAt(start, ws, i)
    decreases i
  {
    if i > 0 {
      FeedAtPrefix(start, ws, more, i - 1);
    }
  }

  /** And every venue's feed can make 36 in its first 300 seconds. */
  lemma ThirtySixAttempts(venue: Venue, now: real) returns (ws: seq<Weather>)
    ensures AllPossible(ws)
    ensures CountIn(AttemptTimes(Trace(FeedStart(venue, now), ws, |ws|)), now, now + 300.0) == 36
  {
    hide MinTime, Trace;
    var start, n := FeedStart(venue, now), 35;
    var first := MinTimeIsApproached(start, n, 1.0);
    ThirtyFiveCycles();
    FeedAtPrefix(start, first, [QUICK_FAILURE], n);
    ws := first + [QUICK_FAILURE];
    AllWithin(start, ws, 300.0);
  }

  /** If the last attempt comes within `span` of the start, all do. */
  lemma AllWithin(start: FeedState, ws: seq<Weather>, span: real)
    requires AllPossible(ws) && start.bucket.rate > 0.0 && ws != []
    requires FeedAt(start, ws, |ws| - 1).now <= start.now + span
    ensures CountIn(AttemptTimes(Trace(start, ws, |ws|)), start.now, start.now + span) == |ws|
  {
    var times := AttemptTimes(Trace(start, ws, |ws|));
    forall i | 0 <= i < |ws| ensures start.now <= times[i] <= start.now + span {
      TraceAt(start, ws, |ws|, i);
      ClockAdvances(start, ws, 0, i);
      ClockAdvances(start, ws, i, |ws| - 1);
    }
    AllIn(times, start.now, start.now + span);
  }

  // ---------------------------------------------------------------- the bucket on its own, in five minutes

  /** A venue's bucket, used alone from when it is full, lets through at most 305 or 155 attempts in five minutes. */
  lemma BucketPerFiveMinutes(venue: Venue, now: real, calls: seq<Call>, from: real)
    requires AllCalls(calls)
    ensures CountIn(SpendTimes(States(Timed(FeedStart(venue, now).bucket, now), calls)), from, from + 300.0)
         <= if venue.Binance? then 305 else 155
  {
    var most := if venue.Binance? then 305.0 else 155.0;
    SpendsPerWindow(Timed(FeedStart(venue, now).bucket, now), calls, from, 300.0, most);
  }

  /** `n` calls one right after the other. */
  function Burst(n: nat): (calls: seq<Call>)
    ensures |calls| == n && forall i :: 0 <= i < n ==> calls[i] == Call(0.0, 0.0)
  {
    seq(n, _ => Call(0.0, 0.0))
  }

  /** Under a burst Binance's bucket gives five tokens at once and then one every second. */
  lemma {:induction false} BurstState(now: real, n: nat, k: nat)
    requires k <= n
    ensures BucketAt(Timed(FeedStart(Binance, now).bucket, now), Burst(n), k)
         == Timed(Bucket(5.0, 1.0, if k <= 5 then 5.0 - k as real else 0.0, if k <= 5 then now else now + (k - 5) as real),
              if k <= 5 then now else now + (k - 5) as real)
    decreases k
  {
    if k > 0 {
      BurstState(now, n, k - 1);
    }
  }

  /** So its bucket alone would let 305 attempts through in five minutes, five more than the venue's documented limit. */
  lemma BucketAloneExceedsLimit(now: real)
    ensures AllCalls(Burst(305))
    ensures CountIn(SpendTimes(States(Timed(FeedStart(Binance, now).bucket, now), Burst(305))), now, now + 300.0) == 305
  {
    var n := 305;
    var start, calls := Timed(FeedStart(Binance, now).bucket, now), Burst(n);
    var states := States(start, calls);
    var times := SpendTimes(states);
    forall i | 0 <= i < n ensures now <= times[i] <= now + 300.0 {
      BurstState(now, n, i + 1);
      assert times[i] == states[i + 1].now == BucketAt(start, calls, i + 1).now;
    }
    AllIn(times, now, now + 300.0);
  }
}
