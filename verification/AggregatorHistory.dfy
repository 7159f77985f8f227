/** What holds of the aggregator over every sequence of events. */
module AggregatorHistory {
  import opened Collections
  import opened Model
  import opened Merge
  import opened MergeTheorems
  import opened MergeMonotone
  import opened MergeOrder
  import opened MergeDepartures
  import opened MergeSummary
  import opened Sorting
  import opened Aggregator

  // ---------------------------------------------------------------- grace

  ghost predicate Delivered(events: seq<Event>, i: nat, v: Venue)
    requires i <= |events|
  {
    exists k :: 0 <= k < i && events[k].Received? && events[k].venue == v
  }

  lemma DeliveredLater(events: seq<Event>, i: nat, v: Venue)
    requires i < |events| && Delivered(events, i, v)
    ensures Delivered(events, i + 1, v)
  {
  }

  /** While the aggregator runs, the venues in its map are exactly those that have delivered a book. */
  lemma {:induction false} VenuesRemembered(startedAt: real, receivers: nat, events: seq<Event>, i: nat)
    requires i <= |events|
    ensures !TaskAt(startedAt, receivers, events, i).done ==>
        forall v :: v in TaskAt(startedAt, receivers, events, i).agg.venues <==> Delivered(events, i, v)
  {
    var s := TaskAt(startedAt, receivers, events, i);
    if i > 0 && !s.done {
      VenuesRemembered(startedAt, receivers, events, i - 1);
      var before, e := TaskAt(startedAt, receivers, events, i - 1), events[i - 1];
      forall v ensures v in s.agg.venues <==> Delivered(events, i, v) {
        if Delivered(events, i - 1, v) {
          DeliveredLater(events, i - 1, v);
        } else if e.Received? && e.venue == v {
          assert events[i - 1].Received? && events[i - 1].venue == v;
        }
        assert v in before.agg.venues <==> Delivered(events, i - 1, v);
      }
    }
  }

  /**
   The aggregator gives up at a tick if and only if more than the grace period has passed and no venue has
   delivered a single book; once one has, it never does.
   */
  lemma GivesUpIffNothingEverCame(startedAt: real, receivers: nat, events: seq<Event>, i: nat)
    requires i < |events| && events[i].GraceTick? && !TaskAt(startedAt, receivers, events, i).done
    ensures TaskAt(startedAt, receivers, events, i + 1).done <==>
            Elapsed(events[i].now, startedAt) > GRACE && forall k :: 0 <= k < i ==> !events[k].Received?
  {
    VenuesRemembered(startedAt, receivers, events, i);
    var venues := TaskAt(startedAt, receivers, events, i).agg.venues;
    if v :| v in venues {
      assert Delivered(events, i, v);
    } else {
      assert venues == map[];
      forall k | 0 <= k < i ensures !events[k].Received? {
        if events[k].Received? {
          assert Delivered(events, i, events[k].venue);
        }
      }
    }
  }

  /** The run has been ended: the channel closed, or a check came after 60 seconds without a single book. */
  ghost predicate Ended(startedAt: real, events: seq<Event>, i: nat)
    requires i <= |events|
  {
    exists j :: 0 <= j < i && Ends(startedAt, events, j)
  }

  predicate Ends(startedAt: real, events: seq<Event>, j: nat)
    requires j < |events|
  {
    || events[j].ChannelClosed?
    || (events[j].GraceTick? && events[j].now - startedAt > 60.0 && forall k :: 0 <= k < j ==> !events[k].Received?)
  }

  /** Exactly the runs that were ended are done. */
  lemma {:induction false} DoneIffEnded(startedAt: real, receivers: nat, events: seq<Event>, i: nat)
    requires i <= |events|
    ensures TaskAt(startedAt, receivers, events, i).done <==> Ended(startedAt, events, i)
  {
    if i > 0 {
      var before := TaskAt(startedAt, receivers, events, i - 1);
      DoneIffEnded(startedAt, receivers, events, i - 1);
      assert Ended(startedAt, events, i) <==> Ended(startedAt, events, i - 1) || Ends(startedAt, events, i - 1);
      if !before.done && events[i - 1].GraceTick? {
        GivesUpIffNothingEverCame(startedAt, receivers, events, i - 1);
      }
    }
  }

  /** How many receivers there are: a clone takes one, so once all are gone they stay gone. */
  function Listeners(receivers: nat, events: seq<Event>, i: nat): nat
    requires i <= |events|
  {
    if i == 0 then receivers
    else
      var before := Listeners(receivers, events, i - 1);
      if before == 0 then 0
      else before + (if events[i - 1].ReceiverCloned? then 1 else 0) - if events[i - 1].ReceiverDropped? then 1 else 0
  }

  lemma {:induction false} ListenersCounted(startedAt: real, receivers: nat, events: seq<Event>, i: nat)
    requires i <= |events|
    ensures TaskAt(startedAt, receivers, events, i).cell.receivers == Listeners(receivers, events, i)
  {
    hide Merged, Recorded, PastGrace;
    if i > 0 {
      ListenersCounted(startedAt, receivers, events, i - 1);
    }
  }

  // ---------------------------------------------------------------- what is merged

  /** The last of the first `i` events that delivered a book of `v`. */
  function LastReceived(events: seq<Event>, i: nat, v: Venue): (k: Option<nat>)
    requires i <= |events|
    ensures k.Some? ==> k.value < i && events[k.value].Received? && events[k.value].venue == v
    ensures forall j :: (if k.Some? then k.value + 1 else 0) <= j < i ==> !(events[j].Received? && events[j].venue == v)
  {
    if i == 0 then None
    else if events[i - 1].Received? && events[i - 1].venue == v then Some(i - 1)
    else LastReceived(events, i - 1, v)
  }

  /** While the aggregator runs it holds for each venue the book, and the instant, of the last event that delivered one. */
  lemma {:induction false} HoldsLastReceived(startedAt: real, receivers: nat, events: seq<Event>, i: nat, v: Venue)
    requires i <= |events| && !TaskAt(startedAt, receivers, events, i).done
    ensures var venues, k := TaskAt(startedAt, receivers, events, i).agg.venues, LastReceived(events, i, v);
            && (v in venues <==> k.Some?)
            && (v in venues ==> venues[v] == VenueState(events[k.value].book, events[k.value].now))
  {
    if i > 0 {
      HoldsLastReceived(startedAt, receivers, events, i - 1, v);
      StepVenues(startedAt, TaskAt(startedAt, receivers, events, i - 1), events[i - 1]);
    }
  }

  lemma StepVenues(startedAt: real, s: TaskState, e: Event)
    requires !TaskStep(startedAt, s, e).done
    ensures !s.done
    ensures TaskStep(startedAt, s, e).agg.venues
         == if e.Received? then s.agg.venues[e.venue := VenueState(e.book, e.now)] else s.agg.venues
  {
  }

  /** The books that count at an arrival: for each venue the last one received, if its threshold has not passed since. */
  ghost function RecentBooks(events: seq<Event>, i: nat): map<Venue, Book>
    requires i < |events| && events[i].Received?
  {
    map v: Venue | Counts(events, i, v) :: events[LastReceived(events, i + 1, v).value].book
  }

  /** Binance counts for 1.5 seconds after its last book, Bitstamp for 8 and Kraken for 12. */
  predicate Counts(events: seq<Event>, i: nat, v: Venue)
    requires i < |events| && events[i].Received?
    ensures Counts(events, i, v) ==> LastReceived(events, i + 1, v).Some?
  {
    var k := LastReceived(events, i + 1, v);
    var patience := match v
      case Binance => 1.5
      case Bitstamp => 8.0
      case Kraken => 12.0;
    k.Some? && events[i].now - events[k.value].now < patience
  }

  /** Over every run, what an arrival merges is the last book of every venue heard from within its threshold, and nothing else. */
  lemma MergesRecentBooks(startedAt: real, receivers: nat, events: seq<Event>, i: nat)
    requires i < |events| && events[i].Received? && !TaskAt(startedAt, receivers, events, i).done
    ensures Merged(TaskAt(startedAt, receivers, events, i).agg, events[i].venue, events[i].book, events[i].now)
         == MergeResult(RecentBooks(events, i))
  {
    var e, a := events[i], TaskAt(startedAt, receivers, events, i).agg;
    var live := FreshVenues(a.venues[e.venue := VenueState(e.book, e.now)], e.now);
    forall v
      ensures v in live <==> v in RecentBooks(events, i)
      ensures v in live ==> live[v] == RecentBooks(events, i)[v]
    {
      HoldsLastReceived(startedAt, receivers, events, i, v);
    }
    assert live == RecentBooks(events, i);
  }

  // ---------------------------------------------------------------- counters, dedup and the cell

  /** What has happened so far: merges that gave a summary, publications attempted, and those sent. */
  datatype Log = Log(merges: nat, published: seq<Summary>, sent: seq<Summary>)

  /** A merged summary is published unless it is the one published last, and sent if anyone listens. */
  function Logged(log: Log, summary: Summary, listening: bool): Log {
    var more := if log.published != [] && log.published[|log.published| - 1] == summary then [] else [summary];
    Log(log.merges + 1, log.published + more, log.sent + if listening then more else [])
  }

  /** The history, read off the events alone. */
  ghost function LogAt(startedAt: real, receivers: nat, events: seq<Event>, i: nat): Log
    requires i <= |events|
  {
    if i == 0 then Log(0, [], [])
    else
      var before := LogAt(startedAt, receivers, events, i - 1);
      if Ended(startedAt, events, i - 1) || !events[i - 1].Received? then before
      else
        var merged := MergeResult(RecentBooks(events, i - 1));
        if merged.None? then before else Logged(before, merged.value, Listeners(receivers, events, i - 1) > 0)
  }

  function Last(log: seq<Summary>): Option<Summary> {
    if log == [] then None else Some(log[|log| - 1])
  }

  ghost predicate NoRepeats(log: seq<Summary>) {
    forall i :: 0 < i < |log| ==> log[i - 1] != log[i]
  }

  /** The counters and the cell say exactly what happened. */
  ghost predicate Accounts(a: AggState, c: Cell, log: Log) {
    && a.updateCount == |log.published|
    && a.updateCount + a.duplicateCount == log.merges
    && a.lastPublished == Last(log.published)
    && NoRepeats(log.published)
    && log.sent <= log.published
    && (c.receivers > 0 ==> log.sent == log.published)
    && c.version == |log.sent|
    && c.value == Last(log.sent)
  }

  /** Counting one merged summary keeps the accounts. */
  lemma CountedAccounts(a: AggState, c: Cell, log: Log, summary: Summary)
    requires Accounts(a, c, log)
    ensures Accounts(Counted(a, summary), if a.lastPublished != Some(summary) then SendTo(c, summary) else c,
              Logged(log, summary, c.receivers > 0))
  {
    if a.lastPublished == Some(summary) {
      assert log.published + [] == log.published && log.sent + [] == log.sent;
    } else {
      var published := log.published + [summary];
      assert published[|published| - 1] == summary;
      assert NoRepeats(published);
      if c.receivers == 0 {
        assert log.sent + [] == log.sent;
      }
    }
  }

  lemma QuietAccounts(startedAt: real, s: TaskState, log: Log, e: Event)
    requires Accounts(s.agg, s.cell, log) && (s.done || !e.Received?)
    ensures var s' := TaskStep(startedAt, s, e); Accounts(s'.agg, s'.cell, log)
  {
  }

  lemma ArrivalAccounts(startedAt: real, s: TaskState, log: Log, e: Event)
    requires Accounts(s.agg, s.cell, log) && !s.done && e.Received?
    ensures var s' := TaskStep(startedAt, s, e);
            var merged := Merged(s.agg, e.venue, e.book, e.now);
            Accounts(s'.agg, s'.cell, if merged.None? then log else Logged(log, merged.value, s.cell.receivers > 0))
  {
    if Merged(s.agg, e.venue, e.book, e.now).Some? {
      CountedAccounts(Absorbed(s.agg, e.venue, e.book, e.now), s.cell, log, Merged(s.agg, e.venue, e.book, e.now).value);
    }
  }

  /**
   Over every run the counters and the channel follow the history read off the events: every arrival
   whose recent books merge to something new is published, and sent while a receiver lives; nothing
   else is. Updates and duplicates together are the merges that gave a summary.
   */
  lemma {:induction false} RunAccounts(startedAt: real, receivers: nat, events: seq<Event>, i: nat)
    requires i <= |events|
    ensures var s := TaskAt(startedAt, receivers, events, i); Accounts(s.agg, s.cell, LogAt(startedAt, receivers, events, i))
  {
    hide TaskStep, Accounts, Merged, RecentBooks, MergeResult, Listeners, Ended, Logged;
    if i > 0 {
      var s, e := TaskAt(startedAt, receivers, events, i - 1), events[i - 1];
      RunAccounts(startedAt, receivers, events, i - 1);
      DoneIffEnded(startedAt, receivers, events, i - 1);
      ListenersCounted(startedAt, receivers, events, i - 1);
      if s.done || !e.Received? {
        QuietAccounts(startedAt, s, LogAt(startedAt, receivers, events, i - 1), e);
      } else {
        MergesRecentBooks(startedAt, receivers, events, i - 1);
        ArrivalAccounts(startedAt, s, LogAt(startedAt, receivers, events, i - 1), e);
      }
    } else {
      StartAccounts(receivers);
    }
  }

  lemma StartAccounts(receivers: nat)
    ensures Accounts(TaskStart(receivers).agg, TaskStart(receivers).cell, Log(0, [], []))
  {
  }

  /** While a receiver lives the channel's value is the last published summary. */
  lemma CellIsLastPublished(startedAt: real, receivers: nat, events: seq<Event>, i: nat)
    requires i <= |events| && TaskAt(startedAt, receivers, events, i).cell.receivers > 0
    ensures var s := TaskAt(startedAt, receivers, events, i);
            s.cell.value == s.agg.lastPublished && s.cell.version == s.agg.updateCount
  {
    RunAccounts(startedAt, receivers, events, i);
  }

  /** Every report window's latency samples are its publications; the report's subtraction never wraps. */
  lemma {:induction false} RunWindowed(startedAt: real, receivers: nat, events: seq<Event>, i: nat)
    requires i <= |events|
    ensures Windowed(TaskAt(startedAt, receivers, events, i))
  {
    if i > 0 {
      RunWindowed(startedAt, receivers, events, i - 1);
      StepWindowed(startedAt, TaskAt(startedAt, receivers, events, i - 1), events[i - 1]);
    }
  }

  // ---------------------------------------------------------------- report windows

  /** Just behind the last report among the first `i` events. */
  function WindowStart(events: seq<Event>, i: nat): (r: nat)
    requires i <= |events|
    ensures r <= i
    ensures r > 0 ==> events[r - 1].ReportTick?
    ensures forall j :: r <= j < i ==> !events[j].ReportTick?
  {
    if i == 0 || events[i - 1].ReportTick? then i else WindowStart(events, i - 1)
  }

  function Arrivals(events: seq<Event>, from: nat, to: nat): nat
    requires from <= to <= |events|
  {
    if from == to then 0 else Arrivals(events, from, to - 1) + if events[to - 1].Received? then 1 else 0
  }

  /**
   While the aggregator runs, the parse samples of a report window are the books received in it, and
   its merge and total samples and its update count are the publications made in it.
   */
  lemma {:induction false} WindowSamples(startedAt: real, receivers: nat, events: seq<Event>, i: nat)
    requires i <= |events| && !Ended(startedAt, events, i)
    ensures var s, r := TaskAt(startedAt, receivers, events, i), WindowStart(events, i);
            var now, before := |LogAt(startedAt, receivers, events, i).published|, |LogAt(startedAt, receivers, events, r).published|;
            && s.agg.parseSamples == Arrivals(events, r, i)
            && s.lastReported == before && s.agg.updateCount == now
            && s.agg.mergePublishSamples == s.agg.totalSamples == now - before
  {
    hide LogAt, Ended, MergeResult, Merged, Publication;
    DoneIffEnded(startedAt, receivers, events, i);
    RunAccounts(startedAt, receivers, events, i);
    RunWindowed(startedAt, receivers, events, i);
    if i > 0 {
      DoneIffEnded(startedAt, receivers, events, i - 1);
      WindowSamples(startedAt, receivers, events, i - 1);
      RunAccounts(startedAt, receivers, events, i - 1);
    }
  }

  // ---------------------------------------------------------------- freshness

  /** The books a summary was merged from are those of venues updated within their own threshold, side by side. */
  lemma PublishedLevelsAreFresh(a: AggState, venue: Venue, book: Book, now: real, side: Side, l: Level)
    requires Merged(a, venue, book, now).Some? && l in SideOf(Merged(a, venue, book, now).value, side)
    ensures var held := a.venues[venue := VenueState(book, now)];
            exists v :: v in held && l.exchange == v.Name() && Elapsed(now, held[v].lastUpdate) < v.StalenessThreshold()
              && exists q :: q in side.Levels(held[v].book) && l == Tagged(v, q)
  {
    var held := a.venues[venue := VenueState(book, now)];
    var live := FreshVenues(held, now);
    MergeInvents(Cursors(live, side), side, TOP_N, l);
    var i, k :| 0 <= i < |Cursors(live, side)| && 0 <= k < |Cursors(live, side)[i].rest|
      && l == Tagged(Cursors(live, side)[i].venue, Cursors(live, side)[i].rest[k]);
    CursorsCover(live, side);
    var v := Cursors(live, side)[i].venue;
    assert side.Levels(held[v].book)[k] in side.Levels(held[v].book);
  }

  /**
   In every run each level merged at an arrival is one of the last book received from its venue, and that
   book came within the venue's own threshold of this arrival.
   */
  lemma LevelsComeFromFreshArrivals(startedAt: real, receivers: nat, events: seq<Event>, i: nat, side: Side, l: Level)
    returns (v: Venue, k: nat)
    requires i < |events| && events[i].Received? && !TaskAt(startedAt, receivers, events, i).done
    requires var m := Merged(TaskAt(startedAt, receivers, events, i).agg, events[i].venue, events[i].book, events[i].now);
             m.Some? && l in SideOf(m.value, side)
    ensures k <= i && LastReceived(events, i + 1, v) == Some(k) && l.exchange == v.Name()
    ensures Elapsed(events[i].now, events[k].now) < v.StalenessThreshold()
    ensures exists q :: q in side.Levels(events[k].book) && l == Tagged(v, q)
  {
    hide TaskAt, Merged;
    var e, a := events[i], TaskAt(startedAt, receivers, events, i).agg;
    PublishedLevelsAreFresh(a, e.venue, e.book, e.now, side, l);
    var held := a.venues[e.venue := VenueState(e.book, e.now)];
    v :| v in held && l.exchange == v.Name() && Elapsed(e.now, held[v].lastUpdate) < v.StalenessThreshold()
         && exists q :: q in side.Levels(held[v].book) && l == Tagged(v, q);
    HoldsLastReceived(startedAt, receivers, events, i, v);
    k := LastReceived(events, i + 1, v).value;
  }

  /** The venue that just delivered always takes part, with the book it delivered. */
  lemma ArrivalIsFresh(a: AggState, venue: Venue, book: Book, now: real)
    ensures var live := FreshVenues(a.venues[venue := VenueState(book, now)], now);
            venue in live && live[venue] == book
  {
  }

  /** Leaving stale venues out never narrows the spread of what is still published. */
  lemma StalenessNeverNarrowsSpread(venues: map<Venue, VenueState>, now: real)
    requires MergeResult(FreshVenues(venues, now)).Some?
    ensures var all := map v | v in venues :: venues[v].book;
            && MergeResult(all).Some?
            && MergeResult(all).value.spread <= MergeResult(FreshVenues(venues, now)).value.spread
  {
    FewerVenuesNeverNarrowSpread(FreshVenues(venues, now), map v | v in venues :: venues[v].book);
  }

  /**
   Nor does it improve the price at any published rank, if the fresh venues' books are sorted; the
   stale ones' may be anything.
   */
  lemma StalenessNeverImprovesRank(venues: map<Venue, VenueState>, now: real, side: Side)
    requires BooksPriceSorted(FreshVenues(venues, now), side)
    ensures var all, live := MergeResult(map v | v in venues :: venues[v].book), MergeResult(FreshVenues(venues, now));
            live.Some? ==> all.Some? && Dominates(SideOf(all.value, side), SideOf(live.value, side), ByPrice(side))
    ensures var all := map v | v in venues :: venues[v].book;
            Dominates(MergeN(Cursors(all, side), side, TOP_N),
              MergeN(Cursors(FreshVenues(venues, now), side), side, TOP_N), ByPrice(side))
  {
    var all := map v | v in venues :: venues[v].book;
    FewerVenuesNoBetterPrice(FreshVenues(venues, now), all, side, TOP_N);
    if MergeResult(FreshVenues(venues, now)).Some? {
      FewerVenuesNeverNarrowSpread(FreshVenues(venues, now), all);
    }
  }
}
