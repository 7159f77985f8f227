/** The ten held levels are enough: the summary is the one Kraken's full book would give. */
module KrakenDepth {
  import opened Collections
  import opened Model
  import opened Merge
  import opened MergeMonotone
  import opened KrakenSide
  import opened KrakenSimulation
  import opened KrakenSession
  import opened KrakenHistory

  /** Every level the venue has, best first. */
  ghost function FullSides(t: Truth): Sides {
    Sides(Listing(t.bids, false), Listing(t.asks, true))
  }

  lemma CutQuotes(side: seq<KrakenLevel>)
    ensures Truncate(ToQuotes(Cut(side)), TOP_N) == Truncate(ToQuotes(side), TOP_N)
  {
  }

  /** Merging with the true top ten gives what merging with the whole book would. */
  lemma TopTenSuffices(venues: map<Venue, Book>, t: Truth, startedAt: real, parsedAt: real)
    ensures MergeResult(venues[Kraken := ModelBook(TopSides(t), startedAt, parsedAt)])
         == MergeResult(venues[Kraken := ModelBook(FullSides(t), startedAt, parsedAt)])
  {
    CutQuotes(Listing(t.bids, false));
    CutQuotes(Listing(t.asks, true));
    DepthIndependence(venues[Kraken := ModelBook(TopSides(t), startedAt, parsedAt)],
      venues[Kraken := ModelBook(FullSides(t), startedAt, parsedAt)]);
  }

  /** So every book an honest session publishes merges as the venue's full book at that moment. */
  lemma HonestSessionMergesInFull(lib: Library, ds: seq<Delivery>, truths: seq<Truth>, i: nat, venues: map<Venue, Book>)
    requires HonestSession(lib, ds, truths) && i < |ds| && PublishedAt(lib, ds, i).Some?
    ensures MergeResult(venues[Kraken := PublishedAt(lib, ds, i).value])
         == MergeResult(venues[Kraken := ModelBook(FullSides(truths[i]), ds[i].startedAt, ds[i].parsedAt)])
  {
    HonestSessionPublishesTop(lib, ds, truths, i);
    TopTenSuffices(venues, truths[i], ds[i].startedAt, ds[i].parsedAt);
  }
}
