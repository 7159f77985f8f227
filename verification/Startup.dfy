/** The first attempts of a feed that never gets stable, against the aggregator's grace period for a first book. */
module Startup {
  import opened Collections
  import opened Model
  import opened Feed
  import opened FeedBounds
  import opened Aggregator
  import opened AggregatorHistory

  /** What the first `i` cycles last: each connection, each jittered delay and each late waking. */
  function Waited(ws: seq<Weather>, i: nat): real
    requires i <= |ws|
  {
    if i == 0 then 0.0
    else Waited(ws, i - 1) + ws[i - 1].lasted + DelaySecs(i - 1) as real * ws[i - 1].jitter + ws[i - 1].late
  }

  lemma UnstableCycle(s: FeedState, w: Weather)
    requires Possible(w) && NeverStable(w) && Slack(s)
    ensures FeedStep(s, w).attempt == NextAttempt(s.attempt)
    ensures FeedStep(s, w).now == s.now + w.lasted + DelaySecs(s.attempt) as real * w.jitter + w.late
  {
    CycleKeepsSlack(s, w);
  }

  /** Without a stable connection the attempts are counted and their waits add up, whatever the bucket. */
  lemma {:induction false} UnstableRun(venue: Venue, now: real, ws: seq<Weather>, i: nat)
    requires AllPossible(ws) && i <= |ws| && i <= U32_MAX
    requires forall k :: 0 <= k < i ==> NeverStable(ws[k])
    ensures FeedAt(FeedStart(venue, now), ws, i).attempt == i
    ensures FeedAt(FeedStart(venue, now), ws, i).now == now + Waited(ws, i)
  {
    hide FeedStep, Slack, DelaySecs;
    if i > 0 {
      UnstableRun(venue, now, ws, i - 1);
      SlackThroughout(venue, now, ws, i - 1);
      UnstableCycle(FeedAt(FeedStart(venue, now), ws, i - 1), ws[i - 1]);
    }
  }

  /**
   The seventh attempt of a feed started `lag` seconds after the aggregator, its first after a whole
   backoff cycle, comes after the grace period if and only if lag and waits come to more than 60 seconds.
   */
  lemma SeventhAttemptAfterGraceIff(venue: Venue, startedAt: real, lag: real, ws: seq<Weather>)
    requires AllPossible(ws) && |ws| >= 6 && forall k :: 0 <= k < 6 ==> NeverStable(ws[k])
    ensures Elapsed(FeedAt(FeedStart(venue, startedAt + lag), ws, 6).now, startedAt) > GRACE <==> lag + Waited(ws, 6) > GRACE
  {
    UnstableRun(venue, startedAt + lag, ws, 6);
  }

  /**
   For the aggregator: with no book received, a check of the grace period up to that seventh attempt
   ends it only if they do come to more than 60 seconds, and then a check at that attempt does end it.
   */
  lemma BackoffOutlastsGrace(venue: Venue, startedAt: real, lag: real, ws: seq<Weather>, receivers: nat, events: seq<Event>, i: nat)
    requires AllPossible(ws) && |ws| >= 6 && forall k :: 0 <= k < 6 ==> NeverStable(ws[k])
    requires i < |events| && events[i].GraceTick? && forall k :: 0 <= k < i ==> !events[k].Received?
    requires !TaskAt(startedAt, receivers, events, i).done
    ensures var seventh := FeedAt(FeedStart(venue, startedAt + lag), ws, 6).now;
            && (events[i].now <= seventh && TaskAt(startedAt, receivers, events, i + 1).done ==> lag + Waited(ws, 6) > GRACE)
            && (events[i].now == seventh && lag + Waited(ws, 6) > GRACE ==> TaskAt(startedAt, receivers, events, i + 1).done)
  {
    SeventhAttemptAfterGraceIff(venue, startedAt, lag, ws);
    GivesUpIffNothingEverCame(startedAt, receivers, events, i);
  }

  /** Connects that fail at once, all with the same jitter. */
  function Failures(jitter: real): (ws: seq<Weather>)
    ensures |ws| == 6 && forall k :: 0 <= k < 6 ==> ws[k] == Weather(0.0, None, jitter, 0.0, 0.0)
  {
    seq(6, _ => Weather(0.0, None, jitter, 0.0, 0.0))
  }

  /** Both happen: these wait 61 seconds times the jitter, which is within the grace period up to 60/61. */
  lemma EitherWay(jitter: real)
    requires 0.5 <= jitter < 1.5
    ensures AllPossible(Failures(jitter)) && forall k :: 0 <= k < 6 ==> NeverStable(Failures(jitter)[k])
    ensures Waited(Failures(jitter), 6) > GRACE <==> jitter > 60.0 / 61.0
  {
    hide DelaySecs;
    var ws := Failures(jitter);
    Delays(0);
    Delays(1);
    Delays(2);
    Delays(3);
    Delays(4);
    Delays(5);
    assert Waited(ws, 1) == jitter;
    assert Waited(ws, 3) == 3.0 * jitter + 4.0 * jitter;
    assert Waited(ws, 5) == 7.0 * jitter + 8.0 * jitter + 16.0 * jitter;
    assert Waited(ws, 6) == 61.0 * jitter;
  }
}
