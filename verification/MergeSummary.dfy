/** What a published summary says of the books it was merged from: both sides in full, and their spread. */
module MergeSummary {
  import opened Collections
  import opened Model
  import opened Merge
  import opened MergeTheorems
  import opened MergeMonotone
  import opened MergeOrder
  import opened Sorting

  function SideOf(s: Summary, side: Side): seq<Level> {
    match side case Bid => s.bids case Ask => s.asks
  }

  lemma SummarySide(venues: map<Venue, Book>, s: Summary, side: Side)
    requires MergeResult(venues) == Some(s)
    ensures SideOf(s, side) == MergeN(Cursors(venues, side), side, 10)
  {
  }

  // ---------------------------------------------------------------- how many levels

  function CountOf(venues: map<Venue, Book>, v: Venue, side: Side): nat {
    if v in venues then |side.Levels(venues[v])| else 0
  }

  /** All levels there are on one side. */
  function LevelCount(venues: map<Venue, Book>, side: Side): nat {
    CountOf(venues, Binance, side) + CountOf(venues, Bitstamp, side) + CountOf(venues, Kraken, side)
  }

  lemma {:induction false} TotalConcat(a: seq<Cursor>, b: seq<Cursor>)
    ensures Total(a + b) == Total(a) + Total(b)
  {
    if a == [] {
      assert a + b == b;
    } else {
      assert (a + b)[1..] == a[1..] + b;
      TotalConcat(a[1..], b);
    }
  }

  lemma TotalCounts(venues: map<Venue, Book>, side: Side)
    ensures Total(Cursors(venues, side)) == LevelCount(venues, side)
  {
    var a, b, c := CursorFor(venues, Binance, side), CursorFor(venues, Bitstamp, side), CursorFor(venues, Kraken, side);
    TotalConcat(a + b, c);
    TotalConcat(a, b);
  }

  /** Nothing is published exactly when one side has no level at any venue. */
  lemma NothingToPublishIff(venues: map<Venue, Book>)
    ensures MergeResult(venues).None? <==> LevelCount(venues, Bid) == 0 || LevelCount(venues, Ask) == 0
  {
    TotalCounts(venues, Bid);
    TotalCounts(venues, Ask);
    MergeLength(Cursors(venues, Bid), Bid, TOP_N);
    MergeLength(Cursors(venues, Ask), Ask, TOP_N);
  }

  /** Otherwise each side has ten levels, or all there are. */
  lemma SummaryLength(venues: map<Venue, Book>, s: Summary, side: Side)
    requires MergeResult(venues) == Some(s)
    ensures |SideOf(s, side)| == if LevelCount(venues, side) <= 10 then LevelCount(venues, side) else 10
  {
    SummarySide(venues, s, side);
    TotalCounts(venues, side);
    MergeLength(Cursors(venues, side), side, 10);
  }

  // ---------------------------------------------------------------- which levels

  /** For sorted books each side is the first ten of all its levels stably sorted, Binance's before Bitstamp's before Kraken's. */
  lemma SummaryIsStableSort(venues: map<Venue, Book>, s: Summary, side: Side)
    requires MergeResult(venues) == Some(s) && BooksBetterSorted(venues, side)
    ensures SideOf(s, side)
         == Truncate(SortBy(Lane(venues, Binance, side) + Lane(venues, Bitstamp, side) + Lane(venues, Kraken, side),
              LevelOrder(side)), 10)
  {
    SummarySide(venues, s, side);
    BooksMergeAsSort(venues, side, 10);
  }

  /**
   For any books each venue's rows are the first levels of its list, price for price and amount for
   amount, as many as the sort of the raised lists takes; and the rows of all venues stand in its order.
   */
  lemma SummaryRows(venues: map<Venue, Book>, s: Summary, side: Side, v: Venue)
    requires MergeResult(venues) == Some(s) && v in venues
    ensures Labels(SideOf(s, side)) == Labels(RaisedSort(Cursors(venues, side), side, 10))
    ensures var rows, list := Filter(SideOf(s, side), FromVenue(v)), side.Levels(venues[v]);
            && |rows| == Taken(Cursors(venues, side), side, 10, v) <= |list|
            && forall k :: 0 <= k < |rows| ==>
                 rows[k].exchange == v.Name() && rows[k].price == list[k].price && rows[k].amount == list[k].amount
  {
    hide MergeN, Cursors, RaisedSort, MergeResult, Filter, SortBy;
    var cs := Cursors(venues, side);
    SummarySide(venues, s, side);
    MergeFollowsRaisedSort(cs, side, 10);
    CursorsDistinct(venues, side);
    CursorPlace(venues, side, v);
    var i :| 0 <= i < |cs| && cs[i] == Cursor(v, side.Levels(venues[v]));
    EachVenuesPart(cs, side, 10, i);
  }

  // ---------------------------------------------------------------- the spread

  /** `Round` gives the nearest whole number, and of two the one further from zero. */
  lemma RoundIsNearest(x: real)
    ensures -0.5 <= Round(x) as real - x <= 0.5
    ensures Round(x) as real - x == 0.5 ==> x > 0.0
    ensures Round(x) as real - x == -0.5 ==> x < 0.0
  {
  }

  /** The spread is a whole number of 8-decimal ticks, within half a tick of the best ask less the best bid. */
  lemma SpreadIsNearestTick(venues: map<Venue, Book>, s: Summary) returns (ticks: int)
    requires MergeResult(venues) == Some(s)
    ensures s.bids != [] && s.asks != []
    ensures var exact := (s.asks[0].price - s.bids[0].price) * 100000000.0;
            && s.spread * 100000000.0 == ticks as real
            && -0.5 <= ticks as real - exact <= 0.5
            && (ticks as real - exact == 0.5 ==> exact > 0.0) && (ticks as real - exact == -0.5 ==> exact < 0.0)
  {
    ticks := Round((s.asks[0].price - s.bids[0].price) * 100000000.0);
    RoundIsNearest((s.asks[0].price - s.bids[0].price) * 100000000.0);
  }
}
