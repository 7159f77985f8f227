/** The aggregator: last book per venue, freshness filter, merge, dedup, publication, counters. */
module Aggregator {
  import opened Collections
  import opened Model
  import opened Merge

  const GRACE: real := 60.0

  datatype VenueState = VenueState(book: Book, lastUpdate: real)

  /** The aggregator's fields as a value; a histogram is its number of samples. */
  datatype AggState = AggState(
    venues: map<Venue, VenueState>,
    parseSamples: nat,
    mergePublishSamples: nat,
    totalSamples: nat,
    updateCount: nat,
    duplicateCount: nat,
    lastPublished: Option<Summary>)

  const EMPTY: AggState := AggState(map[], 0, 0, 0, 0, 0, None)

  /** The `watch` channel: the latest value, how often it was replaced, and who listens. */
  datatype Cell = Cell(version: nat, value: Option<Summary>, receivers: nat)

  /** `send` fails, leaving the value alone, once every receiver is gone. */
  function SendTo(c: Cell, s: Summary): Cell {
    if c.receivers > 0 then c.(version := c.version + 1, value := Some(s)) else c
  }

  class Watch {
    var version: nat
    var value: Option<Summary>
    var receivers: nat

    function Value(): Cell
      reads this
    {
      Cell(version, value, receivers)
    }

    constructor (receivers: nat)
      ensures Value() == Cell(0, None, receivers)
    {
      version, value, this.receivers := 0, None, receivers;
    }

    method Send(s: Summary) returns (ok: bool)
      modifies this
      ensures ok <==> old(receivers) > 0
      ensures Value() == SendTo(old(Value()), s)
    {
      ok := receivers > 0;
      if ok {
        version := version + 1;
        value := Some(s);
      }
    }
  }

  /** Still fresh as of `now`. */
  predicate IsFresh(v: Venue, state: VenueState, now: real) {
    Elapsed(now, state.lastUpdate) < v.StalenessThreshold()
  }

  function FreshVenues(venues: map<Venue, VenueState>, now: real): map<Venue, Book> {
    map v | v in venues && IsFresh(v, venues[v], now) :: venues[v].book
  }

  /** What the books held after this one arrives merge to. */
  function Merged(a: AggState, v: Venue, book: Book, now: real): Option<Summary> {
    MergeResult(FreshVenues(a.venues[v := VenueState(book, now)], now))
  }

  /** The book is held and its parse span sampled, whatever comes of it. */
  function Absorbed(a: AggState, v: Venue, book: Book, now: real): AggState {
    a.(venues := a.venues[v := VenueState(book, now)], parseSamples := a.parseSamples + 1)
  }

  /** A merged summary is counted as a duplicate of the last one, or published. */
  function Counted(a: AggState, summary: Summary): AggState {
    if a.lastPublished == Some(summary) then a.(duplicateCount := a.duplicateCount + 1)
    else a.(
      lastPublished := Some(summary),
      mergePublishSamples := a.mergePublishSamples + 1,
      totalSamples := a.totalSamples + 1,
      updateCount := a.updateCount + 1)
  }

  function Recorded(a: AggState, v: Venue, book: Book, now: real): AggState {
    var summary := Merged(a, v, book, now);
    if summary.None? then Absorbed(a, v, book, now) else Counted(Absorbed(a, v, book, now), summary.value)
  }

  /** The summary this arrival publishes: merged, and not the one published last. */
  function Publication(a: AggState, v: Venue, book: Book, now: real): Option<Summary> {
    if a.lastPublished == Merged(a, v, book, now) then None else Merged(a, v, book, now)
  }

  function CellAfter(c: Cell, publication: Option<Summary>): Cell {
    if publication.Some? then SendTo(c, publication.value) else c
  }

  function Reported(a: AggState): AggState {
    a.(parseSamples := 0, mergePublishSamples := 0, totalSamples := 0)
  }

  predicate PastGrace(startedAt: real, now: real, venuesEmpty: bool) {
    Elapsed(now, startedAt) > GRACE && venuesEmpty
  }

  class AggregatorTask {
    var venues: map<Venue, VenueState>
    var parseSamples: nat
    var mergePublishSamples: nat
    var totalSamples: nat
    var updateCount: nat
    var duplicateCount: nat
    var lastPublished: Option<Summary>

    function Value(): AggState
      reads this
    {
      AggState(venues, parseSamples, mergePublishSamples, totalSamples, updateCount, duplicateCount, lastPublished)
    }

    constructor ()
      ensures Value() == EMPTY
    {
      venues := map[];
      parseSamples, mergePublishSamples, totalSamples, updateCount, duplicateCount := 0, 0, 0, 0, 0;
      lastPublished := None;
    }

    method RecordAndPublish(venue: Venue, book: Book, tx: Watch, now: real)
      modifies this, tx
      ensures Value() == Recorded(old(Value()), venue, book, now)
      ensures tx.Value() == CellAfter(old(tx.Value()), Publication(old(Value()), venue, book, now))
    {
      var summary := Absorb(venue, book, now);
      if summary.Some? {
        PublishIfNew(summary.value, tx);
      }
    }

    method Absorb(venue: Venue, book: Book, now: real) returns (summary: Option<Summary>)
      modifies this
      ensures Value() == Absorbed(old(Value()), venue, book, now)
      ensures summary == Merged(old(Value()), venue, book, now)
    {
      parseSamples := parseSamples + 1;
      venues := venues[venue := VenueState(book, now)];
      var live := FreshVenues(venues, now);
      summary := MergeBooks(live);
    }

    method PublishIfNew(summary: Summary, tx: Watch)
      modifies this, tx
      ensures Value() == Counted(old(Value()), summary)
      ensures tx.Value() == if old(lastPublished) == Some(summary) then old(tx.Value()) else SendTo(old(tx.Value()), summary)
    {
      var isDuplicate := lastPublished.Some? && lastPublished.value == summary;
      lastPublished := Some(summary);
      if isDuplicate {
        duplicateCount := duplicateCount + 1;
        return;
      }
      var ignored := tx.Send(summary);
      mergePublishSamples := mergePublishSamples + 1;
      totalSamples := totalSamples + 1;
      updateCount := updateCount + 1;
    }

    /** The subtraction is on unsigned integers, so the last count must not exceed this one. */
    method LogReport(updateCountAtLastReport: nat) returns (updatesThisWindow: nat, totalMerges: nat)
      requires updateCountAtLastReport <= updateCount
      modifies this
      ensures updatesThisWindow == old(updateCount) - updateCountAtLastReport
      ensures totalMerges == old(updateCount) + old(duplicateCount)
      ensures Value() == Reported(old(Value()))
    {
      updatesThisWindow := updateCount - updateCountAtLastReport;
      totalMerges := updateCount + duplicateCount;
      totalSamples := 0;
      parseSamples := 0;
      mergePublishSamples := 0;
    }
  }

  // ---------------------------------------------------------------- the select loop

  /**
   What the loop wakes up to, and between two wake-ups what the server does to the channel: cloning a
   receiver takes a receiver, so once all are gone they stay gone.
   */
  datatype Event =
    | Received(venue: Venue, book: Book, now: real)
    | ChannelClosed
    | GraceTick(now: real)
    | ReportTick
    | ReceiverCloned
    | ReceiverDropped

  datatype TaskState = TaskState(agg: AggState, cell: Cell, lastReported: nat, done: bool)

  function WithReceivers(c: Cell, e: Event): Cell {
    if e.ReceiverCloned? && c.receivers > 0 then c.(receivers := c.receivers + 1)
    else if e.ReceiverDropped? && c.receivers > 0 then c.(receivers := c.receivers - 1)
    else c
  }

  function TaskStep(startedAt: real, s: TaskState, e: Event): TaskState {
    if s.done then s.(cell := WithReceivers(s.cell, e))
    else
      match e
      case Received(v, book, now) =>
        s.(agg := Recorded(s.agg, v, book, now), cell := CellAfter(s.cell, Publication(s.agg, v, book, now)))
      case ChannelClosed => s.(done := true)
      case GraceTick(now) => s.(done := PastGrace(startedAt, now, s.agg.venues == map[]))
      case ReportTick => s.(agg := Reported(s.agg), lastReported := s.agg.updateCount)
      case ReceiverCloned => s.(cell := WithReceivers(s.cell, e))
      case ReceiverDropped => s.(cell := WithReceivers(s.cell, e))
  }

  function TaskStart(receivers: nat): TaskState {
    TaskState(EMPTY, Cell(0, None, receivers), 0, false)
  }

  /** The aggregator after the first `i` events. */
  function TaskAt(startedAt: real, receivers: nat, events: seq<Event>, i: nat): TaskState
    requires i <= |events|
  {
    if i == 0 then TaskStart(receivers) else TaskStep(startedAt, TaskAt(startedAt, receivers, events, i - 1), events[i - 1])
  }

  /** Samples are counted per report window, and no window counter runs ahead. */
  predicate Windowed(s: TaskState) {
    && s.lastReported <= s.agg.updateCount
    && s.agg.totalSamples == s.agg.mergePublishSamples == s.agg.updateCount - s.lastReported
    && s.agg.mergePublishSamples <= s.agg.parseSamples
  }

  lemma StepWindowed(startedAt: real, s: TaskState, e: Event)
    requires Windowed(s)
    ensures Windowed(TaskStep(startedAt, s, e))
  {
  }

  /** The select loop over a finite stretch of events, ending early when it returns. */
  method Run(startedAt: real, tx: Watch, events: seq<Event>) returns (done: bool, lastReported: nat, task: AggregatorTask)
    requires tx.version == 0 && tx.value == None
    modifies tx
    ensures fresh(task)
    ensures TaskState(task.Value(), tx.Value(), lastReported, done)
         == TaskAt(startedAt, old(tx.receivers), events, |events|)
  {
    task := new AggregatorTask();
    lastReported, done := 0, false;
    ghost var receivers := tx.receivers;
    for i := 0 to |events|
      invariant fresh(task)
      invariant TaskState(task.Value(), tx.Value(), lastReported, done) == TaskAt(startedAt, receivers, events, i)
      invariant Windowed(TaskState(task.Value(), tx.Value(), lastReported, done))
    {
      StepWindowed(startedAt, TaskAt(startedAt, receivers, events, i), events[i]);
      match events[i]
      case Received(venue, book, now) =>
        if !done {
          task.RecordAndPublish(venue, book, tx, now);
        }
      case ChannelClosed => done := true;
      case GraceTick(now) => done := done || PastGrace(startedAt, now, task.venues == map[]);
      case ReportTick =>
        if !done {
          var updates, merges := task.LogReport(lastReported);
          lastReported := task.updateCount;
        }
      case ReceiverCloned =>
        if tx.receivers > 0 {
          tx.receivers := tx.receivers + 1;
        }
      case ReceiverDropped =>
        if tx.receivers > 0 {
          tx.receivers := tx.receivers - 1;
        }
    }
  }
}
