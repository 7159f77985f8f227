/**
 Feeds, the bounded queue, the aggregator and the client streams together, in every interleaving.
 `sent`, `received`, `published` and `seen` record history; nothing reads them but the theorems.
 */
module Pipeline {
  import opened Collections
  import opened Model
  import opened Merge
  import opened MergeTheorems
  import opened MergeMonotone
  import opened Aggregator

  const QUEUE_CAPACITY: nat := 32

  datatype PerVenue<T> = PerVenue(binance: T, bitstamp: T, kraken: T) {
    function Get(v: Venue): T {
      match v case Binance => binance case Bitstamp => bitstamp case Kraken => kraken
    }

    function Set(v: Venue, x: T): (r: PerVenue<T>)
      ensures forall w :: r.Get(w) == if w == v then x else Get(w)
    {
      match v
      case Binance => this.(binance := x)
      case Bitstamp => this.(bitstamp := x)
      case Kraken => this.(kraken := x)
    }
  }

  datatype Item = Item(venue: Venue, book: Book)

  /** A published summary, and for each venue merged into it which of its books that was. */
  datatype Release = Release(summary: Summary, source: map<Venue, nat>)

  /** What a client was shown, and the version it was shown at. */
  datatype View = View(version: nat, summary: Summary)

  datatype System = System(
    sent: PerVenue<seq<Book>>,
    blocked: PerVenue<Option<Book>>,
    queue: seq<Item>,
    received: PerVenue<nat>,
    agg: AggState,
    cell: Cell,
    published: seq<Release>,
    seen: seq<seq<View>>)

  /** One task makes one move. */
  datatype Action =
    | Parsed(venue: Venue, book: Book)
    | Enqueued(venue: Venue)
    | Consumed(now: real)
    | Subscribed
    | Yielded(client: nat)

  /** The server keeps one receiver for itself. */
  const START: System := System(
    PerVenue([], [], []), PerVenue(None, None, None), [], PerVenue(0, 0, 0), EMPTY, Cell(0, None, 1), [], [])

  /** A feed has a book to send; it parses no further until the queue takes it. */
  function FeedParses(s: System, v: Venue, book: Book): System {
    if s.blocked.Get(v).Some? then s
    else s.(sent := s.sent.Set(v, s.sent.Get(v) + [book]), blocked := s.blocked.Set(v, Some(book)))
  }

  function FeedEnqueues(s: System, v: Venue): System {
    if s.blocked.Get(v).None? || |s.queue| >= QUEUE_CAPACITY then s
    else s.(queue := s.queue + [Item(v, s.blocked.Get(v).value)], blocked := s.blocked.Set(v, None))
  }

  /** Which book of each still fresh venue is merged. */
  function Sources(venues: map<Venue, VenueState>, received: PerVenue<nat>, now: real): map<Venue, nat> {
    map v | v in FreshVenues(venues, now) && received.Get(v) > 0 :: received.Get(v) - 1
  }

  function AggregatorConsumes(s: System, now: real): System {
    if s.queue == [] then s
    else
      var Item(v, book) := s.queue[0];
      var received := s.received.Set(v, s.received.Get(v) + 1);
      var agg := Recorded(s.agg, v, book, now);
      var publication := Publication(s.agg, v, book, now);
      var source := Sources(agg.venues, received, now);
      s.(queue := s.queue[1..], received := received, agg := agg, cell := CellAfter(s.cell, publication),
         published := s.published + if publication.Some? then [Release(publication.value, source)] else [])
  }

  function ClientSubscribes(s: System): System {
    s.(seen := s.seen + [[]], cell := s.cell.(receivers := s.cell.receivers + 1))
  }

  /** A stream yields the current value when it is newer than its last; the absent value is dropped. */
  function ClientYields(s: System, c: nat): System {
    if c >= |s.seen| || s.cell.value.None? || (s.seen[c] != [] && s.seen[c][|s.seen[c]| - 1].version >= s.cell.version) then s
    else s.(seen := s.seen[c := s.seen[c] + [View(s.cell.version, s.cell.value.value)]])
  }

  function Next(s: System, a: Action): System {
    match a
    case Parsed(v, book) => FeedParses(s, v, book)
    case Enqueued(v) => FeedEnqueues(s, v)
    case Consumed(now) => AggregatorConsumes(s, now)
    case Subscribed => ClientSubscribes(s)
    case Yielded(c) => ClientYields(s, c)
  }

  /** The system after the first `i` moves. */
  function SystemAt(actions: seq<Action>, i: nat): System
    requires i <= |actions|
  {
    if i == 0 then START else Next(SystemAt(actions, i - 1), actions[i - 1])
  }

  // ---------------------------------------------------------------- the queue

  function BooksOf(queue: seq<Item>, v: Venue): seq<Book> {
    if queue == [] then [] else (if queue[0].venue == v then [queue[0].book] else []) + BooksOf(queue[1..], v)
  }

  lemma {:induction false} BooksOfAppend(queue: seq<Item>, item: Item, v: Venue)
    ensures BooksOf(queue + [item], v) == BooksOf(queue, v) + if item.venue == v then [item.book] else []
  {
    if queue == [] {
      assert queue + [item] == [item] && [item][1..] == [];
    } else {
      var head := if queue[0].venue == v then [queue[0].book] else [];
      assert (queue + [item])[0] == queue[0] && (queue + [item])[1..] == queue[1..] + [item];
      BooksOfAppend(queue[1..], item, v);
      Associative(head, BooksOf(queue[1..], v), if item.venue == v then [item.book] else []);
    }
  }

  function Waiting(b: Option<Book>): seq<Book> {
    if b.Some? then [b.value] else []
  }

  /** Nothing is lost, repeated or overtaken on the way: what was sent and not yet received is queued in order. */
  ghost predicate InOrder(s: System, v: Venue) {
    && s.received.Get(v) <= |s.sent.Get(v)|
    && BooksOf(s.queue, v) + Waiting(s.blocked.Get(v)) == s.sent.Get(v)[s.received.Get(v)..]
  }

  ghost predicate QueueOk(s: System) {
    |s.queue| <= QUEUE_CAPACITY && forall v :: InOrder(s, v)
  }

  lemma ParsedKeepsQueue(s: System, v: Venue, book: Book)
    requires QueueOk(s)
    ensures QueueOk(FeedParses(s, v, book))
  {
    var s' := FeedParses(s, v, book);
    forall w ensures InOrder(s', w) {
      assert InOrder(s, w);
      if w == v && s.blocked.Get(v).None? {
        var n := s.received.Get(v);
        assert (s.sent.Get(v) + [book])[n..] == s.sent.Get(v)[n..] + [book];
      }
    }
  }

  lemma EnqueuedKeepsQueue(s: System, v: Venue)
    requires QueueOk(s)
    ensures QueueOk(FeedEnqueues(s, v))
  {
    var s' := FeedEnqueues(s, v);
    forall w ensures InOrder(s', w) {
      assert InOrder(s, w);
      if s.blocked.Get(v).Some? && |s.queue| < QUEUE_CAPACITY {
        BooksOfAppend(s.queue, Item(v, s.blocked.Get(v).value), w);
      }
    }
  }

  /** The head of the queue is the next book its venue sent. */
  lemma HeadIsNext(s: System)
    requires QueueOk(s) && s.queue != []
    ensures var Item(v, book) := s.queue[0];
            s.received.Get(v) < |s.sent.Get(v)| && s.sent.Get(v)[s.received.Get(v)] == book
  {
    var v := s.queue[0].venue;
    assert InOrder(s, v);
    assert s.sent.Get(v)[s.received.Get(v)..][0] == s.queue[0].book;
  }

  lemma ConsumedKeepsQueue(s: System, now: real)
    requires QueueOk(s)
    ensures QueueOk(AggregatorConsumes(s, now))
  {
    if s.queue != [] {
      var s' := AggregatorConsumes(s, now);
      HeadIsNext(s);
      forall w ensures InOrder(s', w) {
        assert InOrder(s, w);
        if w == s.queue[0].venue {
          var n := s.received.Get(w);
          assert s.sent.Get(w)[n..][1..] == s.sent.Get(w)[n + 1..];
          assert (BooksOf(s.queue, w) + Waiting(s.blocked.Get(w)))[1..] == BooksOf(s.queue[1..], w) + Waiting(s.blocked.Get(w));
        } else {
          assert BooksOf(s.queue, w) == [] + BooksOf(s.queue[1..], w);
        }
      }
    }
  }

  lemma NextKeepsQueue(s: System, a: Action)
    requires QueueOk(s)
    ensures QueueOk(Next(s, a))
  {
    match a
    case Parsed(v, book) => ParsedKeepsQueue(s, v, book);
    case Enqueued(v) => EnqueuedKeepsQueue(s, v);
    case Consumed(now) => ConsumedKeepsQueue(s, now);
    case Subscribed => assert forall v :: InOrder(s, v) ==> InOrder(Next(s, a), v);
    case Yielded(c) => assert forall v :: InOrder(s, v) ==> InOrder(Next(s, a), v);
  }

  // ---------------------------------------------------------------- what the aggregator holds and publishes

  /** For each venue the aggregator holds the last book it received from it. */
  ghost predicate Latest(venues: map<Venue, VenueState>, sent: PerVenue<seq<Book>>, received: PerVenue<nat>) {
    forall v ::
      && received.Get(v) <= |sent.Get(v)|
      && (v in venues <==> received.Get(v) > 0)
      && (v in venues ==> venues[v].book == sent.Get(v)[received.Get(v) - 1])
  }

  ghost predicate HoldsLatest(s: System) {
    Latest(s.agg.venues, s.sent, s.received)
  }

  /** The books a release names as its sources. */
  function SourceBooks(source: map<Venue, nat>, sent: PerVenue<seq<Book>>): map<Venue, Book> {
    map v | v in source && source[v] < |sent.Get(v)| :: sent.Get(v)[source[v]]
  }

  /** A release is what its sources, all of them really sent, merge to. */
  ghost predicate FromSent(r: Release, sent: PerVenue<seq<Book>>) {
    && (forall v :: v in r.source ==> r.source[v] < |sent.Get(v)|)
    && MergeResult(SourceBooks(r.source, sent)) == Some(r.summary)
  }

  ghost predicate NoOlder(r: Release, r': Release) {
    forall v :: v in r.source && v in r'.source ==> r.source[v] <= r'.source[v]
  }

  /** Every source of `r` has been received. */
  ghost predicate Behind(r: Release, received: PerVenue<nat>) {
    forall v :: v in r.source ==> r.source[v] < received.Get(v)
  }

  ghost predicate Releases(published: seq<Release>, sent: PerVenue<seq<Book>>, received: PerVenue<nat>) {
    && (forall k :: 0 <= k < |published| ==> FromSent(published[k], sent) && Behind(published[k], received))
    && (forall j, k :: 0 <= j < k < |published| ==> NoOlder(published[j], published[k]))
  }

  ghost predicate ReleasesOk(s: System) {
    Releases(s.published, s.sent, s.received)
  }

  ghost predicate CellOk(s: System) {
    && s.cell.receivers > 0
    && s.cell.version == |s.published|
    && s.cell.value == (if s.published == [] then None else Some(s.published[|s.published| - 1].summary))
    && s.agg.lastPublished == s.cell.value
  }

  lemma SentGrows(r: Release, sent: PerVenue<seq<Book>>, sent': PerVenue<seq<Book>>)
    requires FromSent(r, sent) && forall v :: sent.Get(v) <= sent'.Get(v)
    ensures FromSent(r, sent')
  {
    assert SourceBooks(r.source, sent) == SourceBooks(r.source, sent');
  }

  lemma MoreSent(published: seq<Release>, sent: PerVenue<seq<Book>>, sent': PerVenue<seq<Book>>, received: PerVenue<nat>)
    requires Releases(published, sent, received) && forall v :: sent.Get(v) <= sent'.Get(v)
    ensures Releases(published, sent', received)
  {
    forall k | 0 <= k < |published| ensures FromSent(published[k], sent') {
      SentGrows(published[k], sent, sent');
    }
  }

  lemma ParsedKeepsReleases(s: System, v: Venue, book: Book)
    requires HoldsLatest(s) && ReleasesOk(s)
    ensures HoldsLatest(FeedParses(s, v, book)) && ReleasesOk(FeedParses(s, v, book))
    ensures CellOk(s) ==> CellOk(FeedParses(s, v, book))
  {
    MoreSent(s.published, s.sent, FeedParses(s, v, book).sent, s.received);
  }

  lemma ConsumedHoldsLatest(s: System, now: real)
    requires QueueOk(s) && HoldsLatest(s) && s.queue != []
    ensures HoldsLatest(AggregatorConsumes(s, now))
  {
    hide QueueOk, Latest, MergeResult, Publication, CellAfter, Sources;
    HeadIsNext(s);
    var Item(v, book) := s.queue[0];
    assert Recorded(s.agg, v, book, now).venues == s.agg.venues[v := VenueState(book, now)];
    OneMoreReceived(s.agg.venues, s.sent, s.received, v, VenueState(book, now));
  }

  lemma OneMoreReceived(venues: map<Venue, VenueState>, sent: PerVenue<seq<Book>>, received: PerVenue<nat>, v: Venue, state: VenueState)
    requires Latest(venues, sent, received)
    requires received.Get(v) < |sent.Get(v)| && sent.Get(v)[received.Get(v)] == state.book
    ensures Latest(venues[v := state], sent, received.Set(v, received.Get(v) + 1))
  {
  }

  /** A new release is merged from the books now held by the venues still fresh. */
  lemma NewReleaseFromSent(venues: map<Venue, VenueState>, sent: PerVenue<seq<Book>>, received: PerVenue<nat>, now: real, summary: Summary)
    requires Latest(venues, sent, received) && MergeResult(FreshVenues(venues, now)) == Some(summary)
    ensures var r := Release(summary, Sources(venues, received, now));
            FromSent(r, sent) && Behind(r, received) && forall v :: v in r.source ==> r.source[v] == received.Get(v) - 1
  {
    SourcesNameFresh(venues, sent, received, now);
  }

  lemma SourcesNameFresh(venues: map<Venue, VenueState>, sent: PerVenue<seq<Book>>, received: PerVenue<nat>, now: real)
    requires Latest(venues, sent, received)
    ensures SourceBooks(Sources(venues, received, now), sent) == FreshVenues(venues, now)
  {
  }

  /** A release sourced from the newest books received can follow all earlier ones. */
  lemma ReleaseAppends(published: seq<Release>, r: Release, sent: PerVenue<seq<Book>>, received: PerVenue<nat>)
    requires Releases(published, sent, received) && FromSent(r, sent) && Behind(r, received)
    requires forall v :: v in r.source ==> r.source[v] == received.Get(v) - 1
    ensures Releases(published + [r], sent, received)
  {
    hide FromSent;
    forall k | 0 <= k < |published| ensures NoOlder(published[k], r) {
      assert Behind(published[k], received);
    }
    var longer := published + [r];
    forall j, k | 0 <= j < k < |longer| ensures NoOlder(longer[j], longer[k]) {
      assert k < |published| ==> NoOlder(published[j], published[k]);
    }
  }

  lemma MoreReceived(published: seq<Release>, sent: PerVenue<seq<Book>>, received: PerVenue<nat>, received': PerVenue<nat>)
    requires Releases(published, sent, received) && forall v :: received.Get(v) <= received'.Get(v)
    ensures Releases(published, sent, received')
  {
    forall k | 0 <= k < |published| ensures Behind(published[k], received') {
      assert Behind(published[k], received);
    }
  }

  lemma ConsumedKeepsReleases(s: System, now: real)
    requires QueueOk(s) && HoldsLatest(s) && ReleasesOk(s) && s.queue != []
    ensures ReleasesOk(AggregatorConsumes(s, now))
  {
    var Item(v, book) := s.queue[0];
    var s' := AggregatorConsumes(s, now);
    var publication := Publication(s.agg, v, book, now);
    ConsumedHoldsLatest(s, now);
    MoreReceived(s.published, s.sent, s.received, s'.received);
    if publication.Some? {
      assert s'.agg.venues == s.agg.venues[v := VenueState(book, now)];
      NewReleaseFromSent(s'.agg.venues, s.sent, s'.received, now, publication.value);
      ReleaseAppends(s.published, Release(publication.value, Sources(s'.agg.venues, s'.received, now)), s.sent, s'.received);
    } else {
      assert s'.published == s.published;
    }
  }

  lemma ConsumedKeepsCell(s: System, now: real)
    requires CellOk(s) && s.queue != []
    ensures CellOk(AggregatorConsumes(s, now))
  {
    var Item(v, book) := s.queue[0];
    var publication := Publication(s.agg, v, book, now);
    var s' := AggregatorConsumes(s, now);
    if publication.Some? {
      assert s'.published[|s'.published| - 1].summary == publication.value;
    } else {
      assert s'.published == s.published;
    }
  }

  lemma EnqueuedKeepsReleases(s: System, v: Venue)
    requires HoldsLatest(s) && ReleasesOk(s) && CellOk(s)
    ensures var s' := FeedEnqueues(s, v); HoldsLatest(s') && ReleasesOk(s') && CellOk(s')
  {
    SameHistory(s, FeedEnqueues(s, v));
  }

  /** Moves that touch neither books, releases nor the cell's value keep what is known of them. */
  lemma SameHistory(s: System, s': System)
    requires s'.sent == s.sent && s'.received == s.received && s'.agg == s.agg && s'.published == s.published
    requires s'.cell.version == s.cell.version && s'.cell.value == s.cell.value && s'.cell.receivers >= s.cell.receivers
    requires HoldsLatest(s) && ReleasesOk(s) && CellOk(s)
    ensures HoldsLatest(s') && ReleasesOk(s') && CellOk(s')
  {
    hide Latest, Releases;
  }

  lemma ClientsKeepReleases(s: System, c: nat)
    requires HoldsLatest(s) && ReleasesOk(s) && CellOk(s)
    ensures var s' := ClientSubscribes(s); HoldsLatest(s') && ReleasesOk(s') && CellOk(s')
    ensures var s' := ClientYields(s, c); HoldsLatest(s') && ReleasesOk(s') && CellOk(s')
  {
    SameHistory(s, ClientSubscribes(s));
    SameHistory(s, ClientYields(s, c));
  }

  lemma ConsumedKeepsAll(s: System, now: real)
    requires QueueOk(s) && HoldsLatest(s) && ReleasesOk(s) && CellOk(s)
    ensures var s' := AggregatorConsumes(s, now); HoldsLatest(s') && ReleasesOk(s') && CellOk(s')
  {
    if s.queue != [] {
      ConsumedHoldsLatest(s, now);
      ConsumedKeepsReleases(s, now);
      ConsumedKeepsCell(s, now);
    }
  }

  lemma NextKeepsReleases(s: System, a: Action)
    requires QueueOk(s) && HoldsLatest(s) && ReleasesOk(s) && CellOk(s)
    ensures var s' := Next(s, a); HoldsLatest(s') && ReleasesOk(s') && CellOk(s')
  {
    match a
    case Parsed(v, book) => ParsedKeepsReleases(s, v, book);
    case Enqueued(v) => EnqueuedKeepsReleases(s, v);
    case Consumed(now) => ConsumedKeepsAll(s, now);
    case Subscribed => ClientsKeepReleases(s, 0);
    case Yielded(c) => ClientsKeepReleases(s, c);
  }

  // ---------------------------------------------------------------- the clients

  /** Everything shown is the publication its version names, each version later than the one before. */
  ghost predicate ClientOk(seen: seq<View>, published: seq<Release>) {
    && (forall i :: 0 <= i < |seen| ==> Shows(seen[i], published))
    && (forall i, j :: 0 <= i < j < |seen| ==> seen[i].version < seen[j].version)
  }

  predicate Shows(view: View, published: seq<Release>) {
    1 <= view.version <= |published| && view.summary == published[view.version - 1].summary
  }

  ghost predicate ClientsOk(s: System) {
    forall c :: 0 <= c < |s.seen| ==> ClientOk(s.seen[c], s.published)
  }

  lemma StillShown(seen: seq<View>, published: seq<Release>, published': seq<Release>)
    requires ClientOk(seen, published) && published <= published'
    ensures ClientOk(seen, published')
  {
    forall i | 0 <= i < |seen| ensures Shows(seen[i], published') {
      assert Shows(seen[i], published);
    }
  }

  lemma OneMoreShown(seen: seq<View>, view: View, published: seq<Release>)
    requires ClientOk(seen, published) && Shows(view, published)
    requires seen != [] ==> seen[|seen| - 1].version < view.version
    ensures ClientOk(seen + [view], published)
  {
  }

  lemma YieldKeepsClients(s: System, c: nat)
    requires CellOk(s) && ClientsOk(s)
    ensures ClientsOk(ClientYields(s, c))
  {
    var s' := ClientYields(s, c);
    forall d | 0 <= d < |s'.seen| ensures ClientOk(s'.seen[d], s'.published) {
      assert ClientOk(s.seen[d], s.published);
      if s' != s && d == c {
        OneMoreShown(s.seen[c], View(s.cell.version, s.cell.value.value), s.published);
      }
    }
  }

  lemma NextKeepsClients(s: System, a: Action)
    requires CellOk(s) && ClientsOk(s)
    ensures ClientsOk(Next(s, a))
  {
    match a
    case Yielded(c) => YieldKeepsClients(s, c);
    case Parsed(_, _) | Enqueued(_) | Consumed(_) | Subscribed =>
      var s' := Next(s, a);
      forall c | 0 <= c < |s'.seen| ensures ClientOk(s'.seen[c], s'.published) {
        if c < |s.seen| {
          StillShown(s.seen[c], s.published, s'.published);
        }
      }
  }

  // ---------------------------------------------------------------- every run

  ghost predicate SystemOk(s: System) {
    QueueOk(s) && HoldsLatest(s) && ReleasesOk(s) && CellOk(s) && ClientsOk(s)
  }

  lemma StartOk()
    ensures SystemOk(START)
  {
    assert forall v :: InOrder(START, v);
  }

  lemma {:induction false} EverySystemOk(actions: seq<Action>, i: nat)
    requires i <= |actions|
    ensures SystemOk(SystemAt(actions, i))
  {
    hide Next, SystemOk;
    if i == 0 {
      StartOk();
    } else {
      EverySystemOk(actions, i - 1);
      NextOk(SystemAt(actions, i - 1), actions[i - 1]);
    }
  }

  lemma NextOk(s: System, a: Action)
    requires SystemOk(s)
    ensures SystemOk(Next(s, a))
  {
    hide Next, QueueOk, HoldsLatest, ReleasesOk, CellOk, ClientsOk;
    NextKeepsQueue(s, a);
    NextKeepsReleases(s, a);
    NextKeepsClients(s, a);
  }

  /** History is only added to: books sent, releases published, clients and what each has been shown. */
  ghost predicate Extends(s: System, s': System) {
    && (forall v :: s.sent.Get(v) <= s'.sent.Get(v))
    && s.published <= s'.published
    && |s.seen| <= |s'.seen|
    && forall c :: 0 <= c < |s.seen| ==> s.seen[c] <= s'.seen[c]
  }

  lemma {:induction false} HistoryGrows(actions: seq<Action>, i: nat, j: nat)
    requires i <= j <= |actions|
    ensures Extends(SystemAt(actions, i), SystemAt(actions, j))
    decreases j
  {
    if i < j {
      HistoryGrows(actions, i, j - 1);
      NextExtends(SystemAt(actions, j - 1), actions[j - 1]);
      ExtendsTransitive(SystemAt(actions, i), SystemAt(actions, j - 1), SystemAt(actions, j));
    }
  }

  lemma NextExtends(s: System, a: Action)
    ensures Extends(s, Next(s, a))
  {
  }

  lemma ExtendsTransitive(r: System, s: System, t: System)
    requires Extends(r, s) && Extends(s, t)
    ensures Extends(r, t)
  {
    forall v ensures r.sent.Get(v) <= t.sent.Get(v) {
      assert r.sent.Get(v) <= s.sent.Get(v) <= t.sent.Get(v);
    }
    forall c | 0 <= c < |r.seen| ensures r.seen[c] <= t.seen[c] {
      assert r.seen[c] <= s.seen[c] <= t.seen[c];
    }
  }

  /**
   In every interleaving what a client has been shown are publications of strictly increasing
   versions, the later one sourced from no older book of any venue than the earlier.
   */
  lemma ClientsNeverGoBack(actions: seq<Action>, i: nat, c: nat, j: nat, k: nat)
    requires i <= |actions| && c < |SystemAt(actions, i).seen| && j < k < |SystemAt(actions, i).seen[c]|
    ensures var s := SystemAt(actions, i);
            var before, after := s.seen[c][j], s.seen[c][k];
            && Shows(before, s.published) && Shows(after, s.published) && before.version < after.version
            && NoOlder(s.published[before.version - 1], s.published[after.version - 1])
  {
    EverySystemOk(actions, i);
    var s := SystemAt(actions, i);
    assert ClientOk(s.seen[c], s.published);
    assert Shows(s.seen[c][j], s.published) && Shows(s.seen[c][k], s.published);
  }

  /** The newest release, as a stream shows it. */
  function Newest(published: seq<Release>): View
    requires published != []
  {
    View(|published|, published[|published| - 1].summary)
  }

  lemma YieldShowsNewest(s: System, c: nat)
    requires CellOk(s) && ClientYields(s, c) != s
    ensures c < |s.seen| && s.published != [] && ClientYields(s, c).published == s.published
    ensures ClientYields(s, c).seen == s.seen[c := s.seen[c] + [Newest(s.published)]]
  {
  }

  /** What a stream yields at move `i` is the newest release, and ever after it is one the client has been shown. */
  lemma YieldIsRelease(actions: seq<Action>, i: nat, c: nat, j: nat)
    requires i < j <= |actions| && actions[i] == Yielded(c) && SystemAt(actions, i + 1) != SystemAt(actions, i)
    ensures var s, t := SystemAt(actions, i), SystemAt(actions, j);
            && c < |s.seen| && c < |t.seen| && s.published != []
            && s.seen[c] + [Newest(s.published)] <= t.seen[c] && Shows(Newest(s.published), t.published)
  {
    var s, s', t := SystemAt(actions, i), SystemAt(actions, i + 1), SystemAt(actions, j);
    assert CellOk(s) by {
      EverySystemOk(actions, i);
    }
    assert s' == ClientYields(s, c);
    hide SystemAt, ClientYields, CellOk;
    YieldShowsNewest(s, c);
    HistoryGrows(actions, i + 1, j);
    assert s'.seen[c] <= t.seen[c];
  }

  /**
   Every venue's levels in every release are a prefix of one book that venue really sent, on each
   side; no level has any other origin.
   */
  lemma ReleaseLevelsAreSent(actions: seq<Action>, i: nat, k: nat, v: Venue)
    requires i <= |actions| && k < |SystemAt(actions, i).published|
    ensures var s := SystemAt(actions, i);
            var r := s.published[k];
            if v in r.source then
              && r.source[v] < |s.sent.Get(v)|
              && Filter(r.summary.bids, FromVenue(v)) <= TaggedAll(v, s.sent.Get(v)[r.source[v]].bids)
              && Filter(r.summary.asks, FromVenue(v)) <= TaggedAll(v, s.sent.Get(v)[r.source[v]].asks)
            else Filter(r.summary.bids, FromVenue(v)) == [] && Filter(r.summary.asks, FromVenue(v)) == []
  {
    EverySystemOk(actions, i);
    var s := SystemAt(actions, i);
    assert FromSent(s.published[k], s.sent);
    ReleaseLevels(s.published[k], s.sent, v);
  }

  lemma ReleaseLevels(r: Release, sent: PerVenue<seq<Book>>, v: Venue)
    requires FromSent(r, sent)
    ensures if v in r.source then
              && Filter(r.summary.bids, FromVenue(v)) <= TaggedAll(v, sent.Get(v)[r.source[v]].bids)
              && Filter(r.summary.asks, FromVenue(v)) <= TaggedAll(v, sent.Get(v)[r.source[v]].asks)
            else Filter(r.summary.bids, FromVenue(v)) == [] && Filter(r.summary.asks, FromVenue(v)) == []
  {
    var books := SourceBooks(r.source, sent);
    VenueLevels(books, Bid, TOP_N, v);
    VenueLevels(books, Ask, TOP_N, v);
  }

  lemma VenueLevels(books: map<Venue, Book>, side: Side, n: nat, v: Venue)
    ensures if v in books then Filter(MergeN(Cursors(books, side), side, n), FromVenue(v)) <= TaggedAll(v, side.Levels(books[v]))
            else Filter(MergeN(Cursors(books, side), side, n), FromVenue(v)) == []
  {
    if v in books {
      CursorsDistinct(books, side);
      CursorPlace(books, side, v);
      var i :| 0 <= i < |Cursors(books, side)| && Cursors(books, side)[i] == Cursor(v, side.Levels(books[v]));
      MergeTakesPrefixes(Cursors(books, side), side, n, i);
    } else {
      NoLevels(books, side, n, v);
    }
  }

  lemma NoLevels(books: map<Venue, Book>, side: Side, n: nat, v: Venue)
    requires v !in books
    ensures Filter(MergeN(Cursors(books, side), side, n), FromVenue(v)) == []
  {
    var cs := Cursors(books, side);
    var out := MergeN(cs, side, n);
    CursorsCover(books, side);
    forall l | l in out ensures !FromVenue(v)(l) {
      MergeInvents(cs, side, n, l);
      var i, k :| 0 <= i < |cs| && 0 <= k < |cs[i].rest| && l == Tagged(cs[i].venue, cs[i].rest[k]);
      NameInjective(v, cs[i].venue);
    }
    FilterAllOrNothing(out, FromVenue(v));
  }
}
