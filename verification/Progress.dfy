/** When each move must act, and that no interleaving ever leaves the system stuck. */
module Progress {
  import opened Collections
  import opened Model
  import opened Merge
  import opened Aggregator
  import opened Pipeline

  // ---------------------------------------------------------------- when moves must act

  /** A feed that is not waiting takes in the next book; one that is waiting parses nothing. */
  lemma ParsingActs(s: System, v: Venue, book: Book)
    ensures Next(s, Parsed(v, book))
         == if s.blocked.Get(v).Some? then s
            else s.(sent := s.sent.Set(v, s.sent.Get(v) + [book]), blocked := s.blocked.Set(v, Some(book)))
  {
  }

  /** A waiting feed puts its book at the end of the queue as soon as fewer than 32 are in it, and not before. */
  lemma EnqueueingActs(s: System, v: Venue)
    ensures Next(s, Enqueued(v))
         == if s.blocked.Get(v).Some? && |s.queue| < 32 then
              s.(queue := s.queue + [Item(v, s.blocked.Get(v).value)], blocked := s.blocked.Set(v, None))
            else s
  {
  }

  /** Which of its books is the latest of each venue heard from within its threshold. */
  function LatestFresh(venues: map<Venue, VenueState>, received: PerVenue<nat>, now: real): map<Venue, nat> {
    map v | v in venues && now - venues[v].lastUpdate < v.StalenessThreshold() && received.Get(v) > 0 :: received.Get(v) - 1
  }

  /** What a summary does to the releases: it is added unless there is none or it is the last one again. */
  function WithRelease(published: seq<Release>, merged: Option<Summary>, source: map<Venue, nat>): seq<Release> {
    if merged.None? || (published != [] && published[|published| - 1].summary == merged.value) then published
    else published + [Release(merged.value, source)]
  }

  lemma SourcesAreLatest(venues: map<Venue, VenueState>, received: PerVenue<nat>, now: real)
    ensures Sources(venues, received, now) == LatestFresh(venues, received, now)
  {
  }

  lemma ConsumedPublishes(s: System, now: real)
    requires CellOk(s) && s.queue != []
    ensures var s', v := Next(s, Consumed(now)), s.queue[0].venue;
            && s'.queue == s.queue[1..] && s'.received == s.received.Set(v, s.received.Get(v) + 1)
            && s'.agg.venues == s.agg.venues[v := VenueState(s.queue[0].book, now)]
            && s'.sent == s.sent && s'.blocked == s.blocked && s'.seen == s.seen
            && s'.published == WithRelease(s.published, MergeResult(FreshVenues(s'.agg.venues, now)),
                                 Sources(s'.agg.venues, s'.received, now))
  {
    hide MergeResult, FreshVenues, Sources;
  }

  /**
   Whenever anything is queued the aggregator takes its head, and publishes the merge of the latest fresh
   books if that gives a summary other than the last one published.
   */
  lemma ConsumingActs(s: System, now: real)
    requires SystemOk(s) && s.queue != []
    ensures var s', v := Next(s, Consumed(now)), s.queue[0].venue;
            && s'.queue == s.queue[1..] && s'.received == s.received.Set(v, s.received.Get(v) + 1)
            && s'.agg.venues == s.agg.venues[v := VenueState(s.queue[0].book, now)]
            && s'.sent == s.sent && s'.blocked == s.blocked && s'.seen == s.seen
            && var latest := LatestFresh(s'.agg.venues, s'.received, now);
               s'.published == WithRelease(s.published, MergeResult(SourceBooks(latest, s.sent)), latest)
  {
    hide MergeResult, FreshVenues, Sources, LatestFresh, Latest, QueueOk, CellOk, ReleasesOk, ClientsOk, Next, WithRelease;
    var s' := Next(s, Consumed(now));
    ConsumedPublishes(s, now);
    assert Latest(s'.agg.venues, s'.sent, s'.received) by {
      ConsumedLatest(s, now);
    }
    SourcesAreLatest(s'.agg.venues, s'.received, now);
    SourcesNameFresh(s'.agg.venues, s.sent, s'.received, now);
  }

  lemma ConsumedLatest(s: System, now: real)
    requires QueueOk(s) && HoldsLatest(s) && s.queue != []
    ensures HoldsLatest(Next(s, Consumed(now)))
  {
    ConsumedHoldsLatest(s, now);
  }

  /** A client behind the newest release is shown it; one that has seen it is shown nothing twice. */
  lemma YieldingActs(s: System, c: nat)
    requires SystemOk(s) && c < |s.seen|
    ensures var behind := s.published != [] && (s.seen[c] == [] || s.seen[c][|s.seen[c]| - 1].version < |s.published|);
            Next(s, Yielded(c)) == if behind then s.(seen := s.seen[c := s.seen[c] + [Newest(s.published)]]) else s
  {
    hide QueueOk, HoldsLatest, ReleasesOk;
    assert ClientOk(s.seen[c], s.published);
  }

  /** A new client starts with nothing shown, however much has been published. */
  lemma SubscribingActs(s: System)
    ensures var s' := Next(s, Subscribed);
            s'.seen == s.seen + [[]] && s'.published == s.published && s'.cell.value == s.cell.value
  {
  }

  // ---------------------------------------------------------------- runs from any state

  /** The system after some moves. */
  function After(s: System, actions: seq<Action>): System
    decreases |actions|
  {
    if actions == [] then s else After(Next(s, actions[0]), actions[1..])
  }

  lemma {:induction false} AfterConcat(s: System, a: seq<Action>, b: seq<Action>)
    ensures After(s, a + b) == After(After(s, a), b)
    decreases |a|
  {
    hide Next;
    if a == [] {
      assert a + b == b;
    } else {
      assert (a + b)[1..] == a[1..] + b;
      AfterConcat(Next(s, a[0]), a[1..], b);
    }
  }

  lemma AfterOne(s: System, a: Action)
    ensures After(s, [a]) == Next(s, a)
  {
    assert [a][1..] == [];
  }

  /** What catching up leaves alone. */
  ghost predicate SameInputs(s: System, t: System) {
    t.sent == s.sent && t.seen == s.seen && SystemOk(t)
  }

  /** Consuming works the queue off. */
  lemma {:induction false} Drain(s: System, now: real) returns (actions: seq<Action>)
    requires SystemOk(s)
    ensures var t := After(s, actions); SameInputs(s, t) && t.queue == [] && t.blocked == s.blocked
    decreases |s.queue|
  {
    hide SystemOk, Next;
    if s.queue == [] {
      actions := [];
    } else {
      ConsumingActs(s, now);
      NextOk(s, Consumed(now));
      var rest := Drain(Next(s, Consumed(now)), now);
      actions := [Consumed(now)] + rest;
      assert actions[1..] == rest;
    }
  }

  /** With the queue empty, a waiting book goes through. */
  lemma Flush(s: System, v: Venue, now: real) returns (actions: seq<Action>)
    requires SystemOk(s) && s.queue == []
    ensures var t := After(s, actions);
            SameInputs(s, t) && t.queue == [] && t.blocked.Get(v).None? && forall w :: s.blocked.Get(w).None? ==> t.blocked.Get(w).None?
  {
    hide SystemOk, Next;
    if s.blocked.Get(v).None? {
      actions := [];
    } else {
      var m := Next(s, Enqueued(v));
      EnqueueingActs(s, v);
      NextOk(s, Enqueued(v));
      var rest := Drain(m, now);
      actions := [Enqueued(v)] + rest;
      assert actions[1..] == rest;
    }
  }

  /** Everything sent has been received. */
  ghost predicate CaughtUp(s: System) {
    s.queue == [] && forall v :: s.blocked.Get(v).None? && s.received.Get(v) == |s.sent.Get(v)|
  }

  lemma NothingWaiting(s: System, v: Venue)
    requires SystemOk(s) && s.queue == [] && s.blocked.Get(v).None?
    ensures s.received.Get(v) == |s.sent.Get(v)|
  {
    assert InOrder(s, v);
    assert |s.sent.Get(v)[s.received.Get(v)..]| == 0;
  }

  lemma ReceiveAll(s: System, now: real) returns (actions: seq<Action>)
    requires SystemOk(s)
    ensures var t := After(s, actions); SameInputs(s, t) && CaughtUp(t)
  {
    hide SystemOk, Next, After;
    var a := Drain(s, now);
    var b := Flush(After(s, a), Binance, now);
    AfterConcat(s, a, b);
    var c := Flush(After(s, a + b), Bitstamp, now);
    AfterConcat(s, a + b, c);
    var d := Flush(After(s, a + b + c), Kraken, now);
    AfterConcat(s, a + b + c, d);
    actions := a + b + c + d;
    var t := After(s, actions);
    forall v ensures t.blocked.Get(v).None? && t.received.Get(v) == |t.sent.Get(v)| {
      NothingWaiting(t, v);
    }
  }

  /** The first `n` clients have been shown the newest release, if there is one. */
  ghost predicate UpToDate(s: System, n: nat) {
    n <= |s.seen| && (s.published != [] ==> forall c :: 0 <= c < n ==> s.seen[c] != [] && s.seen[c][|s.seen[c]| - 1] == Newest(s.published))
  }

  lemma {:induction false} ShowAll(s: System, n: nat) returns (actions: seq<Action>)
    requires SystemOk(s) && n <= |s.seen|
    ensures var t := After(s, actions);
            SystemOk(t) && UpToDate(t, n) && |t.seen| == |s.seen| && t.published == s.published && (CaughtUp(s) ==> CaughtUp(t))
            && t.sent == s.sent
  {
    hide SystemOk, Next;
    if n == 0 {
      actions := [];
    } else {
      var before := ShowAll(s, n - 1);
      var m := After(s, before);
      actions := before + [Yielded(n - 1)];
      AfterConcat(s, before, [Yielded(n - 1)]);
      AfterOne(m, Yielded(n - 1));
      NextOk(m, Yielded(n - 1));
      YieldingActs(m, n - 1);
      var shown := m.seen[n - 1];
      if shown != [] && shown[|shown| - 1].version >= |m.published| {
        ShownIsNewest(m, n - 1);
      }
    }
  }

  /** A client that is not behind has been shown the newest release last. */
  lemma ShownIsNewest(s: System, c: nat)
    requires SystemOk(s) && c < |s.seen| && s.seen[c] != [] && s.seen[c][|s.seen[c]| - 1].version >= |s.published|
    ensures s.published != [] && s.seen[c][|s.seen[c]| - 1] == Newest(s.published)
  {
    assert ClientOk(s.seen[c], s.published);
    assert Shows(s.seen[c][|s.seen[c]| - 1], s.published);
  }

  /**
   No interleaving ever gets stuck: from every reachable system some moves, with no new book or client,
   bring every book sent to the aggregator and every client to the newest release.
   */
  lemma CanAlwaysCatchUp(actions: seq<Action>, i: nat, now: real) returns (more: seq<Action>)
    requires i <= |actions|
    ensures var s, t := SystemAt(actions, i), After(SystemAt(actions, i), more);
            CaughtUp(t) && UpToDate(t, |t.seen|) && |t.seen| == |s.seen| && t.sent == s.sent
  {
    hide SystemOk, Next, After, SystemAt;
    var s := SystemAt(actions, i);
    EverySystemOk(actions, i);
    var a := ReceiveAll(s, now);
    var b := ShowAll(After(s, a), |s.seen|);
    AfterConcat(s, a, b);
    more := a + b;
  }
}
