/**
 From wire text to held and returned books, message by message: which texts are read and hashed,
 what each kind of message leaves held, and what a returned book's numbers are.
 */
module KrakenWire {
  import opened Collections
  import opened Model
  import opened Numerals
  import opened Sorting
  import opened KrakenSide
  import opened KrakenSimulation
  import opened KrakenSession
  import opened KrakenHistory
  import opened KrakenGrowth

  // ---------------------------------------------------------------- levels read from the wire

  /** A level is what its two texts say. */
  predicate Reads(lib: Library, w: WireLevel, l: KrakenLevel) {
    && l.priceRaw == w.price && lib.parse(w.price) == Some(l.price)
    && l.qtyRaw == w.qty && lib.parse(w.qty) == Some(l.qty)
  }

  /** Levels are read in order up to the first with a text that is no number. */
  lemma {:induction false} ReadToFirstFailure(lib: Library, wires: seq<WireLevel>)
    ensures var levels := ParsedPrefix(lib, wires);
            && |levels| <= |wires|
            && (forall i :: 0 <= i < |levels| ==> Reads(lib, wires[i], levels[i]))
            && (|levels| < |wires| ==> lib.parse(wires[|levels|].price).None? || lib.parse(wires[|levels|].qty).None?)
            && (AllParse(lib, wires) <==> |levels| == |wires|)
  {
    if wires != [] && wires[0].ToLevel(lib).Some? {
      ReadToFirstFailure(lib, wires[1..]);
      assert AllParse(lib, wires) <==> AllParse(lib, wires[1..]) by {
        assert forall i :: 0 < i < |wires| ==> wires[i] == wires[1..][i - 1];
      }
    }
  }

  // ---------------------------------------------------------------- the hashed text

  lemma {:induction false} SideTextFirst(l: KrakenLevel, rest: seq<KrakenLevel>)
    ensures SideText([l] + rest) == StripForChecksum(l.priceRaw) + StripForChecksum(l.qtyRaw) + SideText(rest)
    decreases |rest|
  {
    var levels, n := [l] + rest, |rest|;
    if rest == [] {
      assert levels[..n] == [] && levels[n] == l;
      assert [] + LevelText(l) == LevelText(l) == LevelText(l) + [];
    } else {
      assert levels[..n] == [l] + rest[..n - 1] && levels[n] == rest[n - 1];
      SideTextFirst(l, rest[..n - 1]);
      Associative(LevelText(l), SideText(rest[..n - 1]), LevelText(rest[n - 1]));
    }
  }

  /** Of an empty book nothing is hashed. */
  lemma ChecksumOfNothing()
    ensures ChecksumText(Sides([], [])) == ""
  {
  }

  /** The best of up to ten asks comes first, price digits before quantity digits. */
  lemma ChecksumAskFirst(bids: seq<KrakenLevel>, ask: KrakenLevel, asks: seq<KrakenLevel>)
    requires |asks| < 10
    ensures ChecksumText(Sides(bids, [ask] + asks))
         == StripForChecksum(ask.priceRaw) + StripForChecksum(ask.qtyRaw) + ChecksumText(Sides(bids, asks))
  {
    SideTextFirst(ask, asks);
    Associative(LevelText(ask), SideText(asks), SideText(Cut(bids)));
  }

  /** Bids follow once there are no more asks. */
  lemma ChecksumBidFirst(bid: KrakenLevel, bids: seq<KrakenLevel>)
    requires |bids| < 10
    ensures ChecksumText(Sides([bid] + bids, []))
         == StripForChecksum(bid.priceRaw) + StripForChecksum(bid.qtyRaw) + ChecksumText(Sides(bids, []))
  {
    SideTextFirst(bid, bids);
    assert forall t: string {:trigger SideText([]) + t} :: SideText([]) + t == t;
  }

  /** Levels behind the tenth of their side are not hashed. With the three laws before, this fixes the whole text. */
  lemma ChecksumTopTen(bids: seq<KrakenLevel>, asks: seq<KrakenLevel>, moreBids: seq<KrakenLevel>, moreAsks: seq<KrakenLevel>)
    requires moreBids == [] || |bids| >= 10
    requires moreAsks == [] || |asks| >= 10
    ensures ChecksumText(Sides(bids + moreBids, asks + moreAsks)) == ChecksumText(Sides(bids, asks))
  {
    assert Cut(bids + moreBids) == Cut(bids) && Cut(asks + moreAsks) == Cut(asks);
  }

  // ---------------------------------------------------------------- what each message does

  /** A book message that makes a whole book: a snapshot, or an update with a book held, all of it readable. */
  predicate Complete(lib: Library, held: Option<Sides>, d: Delivery) {
    (IsSnapshot(d) || (IsUpdate(d) && held.Some?)) && FullyParses(lib, Data(d))
  }

  /** A book comes back exactly from complete messages whose checksum is right. */
  lemma ReturnsIff(lib: Library, ds: seq<Delivery>, i: nat)
    requires i < |ds|
    ensures PublishedAt(lib, ds, i).Some? <==> Complete(lib, HeldAt(lib, ds, i), ds[i]) && !Mismatch(lib, HeldAt(lib, ds, i), ds[i])
  {
  }

  /** A held book is lost to complete messages whose checksum is wrong, and to no other message. */
  lemma HeldLostIff(lib: Library, ds: seq<Delivery>, i: nat)
    requires i < |ds| && HeldAt(lib, ds, i).Some?
    ensures HeldAt(lib, ds, i + 1).None? <==> Mismatch(lib, HeldAt(lib, ds, i), ds[i])
  {
  }

  /** With none held, one comes only from a snapshot that is returned. */
  lemma HeldGainedIff(lib: Library, ds: seq<Delivery>, i: nat)
    requires i < |ds| && HeldAt(lib, ds, i).None?
    ensures HeldAt(lib, ds, i + 1).Some? <==> AcceptedSnapshot(lib, ds, i)
  {
  }

  /** A snapshot that cannot be read, or any message without a change, returns nothing and leaves whatever is held. */
  lemma UnreadableKeepsHeld(lib: Library, ds: seq<Delivery>, i: nat)
    requires i < |ds| && (Quiet(ds[i]) || (IsSnapshot(ds[i]) && !FullyParses(lib, Data(ds[i]))))
    ensures HeldAt(lib, ds, i + 1) == HeldAt(lib, ds, i) && PublishedAt(lib, ds, i) == None
  {
  }

  /**
   A side of a snapshot: its levels in order of price, ten or all there are, and at each price all the
   wire has there, zeros and repetitions included, or as many as fit above what is beneath ten levels.
   */
  lemma SnapshotSideHolds(lib: Library, wires: seq<WireLevel>, ascending: bool, p: real)
    requires AllParse(lib, wires)
    ensures var side, levels := SnapshotSide(lib, wires, ascending), ParsedPrefix(lib, wires);
            && SideSorted(side, ascending) && |side| == (if |wires| <= 10 then |wires| else 10)
            && At(side, p) <= At(levels, p)
            && (At(side, p) == At(levels, p) || Beneath(side, p, ascending))
  {
    var levels := ParsedPrefix(lib, wires);
    var sorted := SortBy(levels, SideOrder(ascending));
    ReadToFirstFailure(lib, wires);
    OrderIsTotal(ascending);
    SortSorted(levels, SideOrder(ascending));
    SortStable(levels, SideOrder(ascending), AtPrice(p));
    CutAt(sorted, p);
    if At(Dropped(sorted), p) != [] {
      DroppedBeneath(sorted, p, ascending);
    } else {
      assert At(Cut(sorted), p) + [] == At(Cut(sorted), p);
    }
  }

  /** An accepted snapshot's own bids and asks become the held ones. */
  lemma SnapshotIsHeld(lib: Library, ds: seq<Delivery>, i: nat)
    requires i < |ds| && AcceptedSnapshot(lib, ds, i)
    ensures HeldAt(lib, ds, i + 1)
         == Some(Sides(SnapshotSide(lib, Data(ds[i]).bids, false), SnapshotSide(lib, Data(ds[i]).asks, true)))
  {
  }

  /** One side after an update that was read to its end: untouched levels and last words in order, the first ten. */
  function Refreshed(side: seq<KrakenLevel>, changes: seq<KrakenLevel>, ascending: bool): seq<KrakenLevel> {
    Truncate(SortBy(Untouched(side, changes) + LastWords(changes), SideOrder(ascending)), 10)
  }

  /** A complete update with the right checksum refreshes both sides, each from its own list. */
  lemma CompleteUpdateRefreshes(lib: Library, ds: seq<Delivery>, i: nat, held: Sides)
    requires i < |ds| && HeldAt(lib, ds, i) == Some(held) && IsUpdate(ds[i]) && PublishedAt(lib, ds, i).Some?
    ensures HeldAt(lib, ds, i + 1)
         == Some(Sides(Refreshed(held.bids, ParsedPrefix(lib, Data(ds[i]).bids), false),
              Refreshed(held.asks, ParsedPrefix(lib, Data(ds[i]).asks), true)))
  {
    HeldSidesSorted(lib, ds, i, held);
    RefreshIs(lib, held, ds[i]);
  }

  lemma HeldSidesSorted(lib: Library, ds: seq<Delivery>, i: nat, held: Sides)
    requires i <= |ds| && HeldAt(lib, ds, i) == Some(held)
    ensures SideSorted(held.bids, false) && SideSorted(held.asks, true)
  {
    ReachableHeldIsGood(lib, ds, i);
  }

  lemma RefreshIs(lib: Library, held: Sides, d: Delivery)
    requires SideSorted(held.bids, false) && SideSorted(held.asks, true)
    requires IsUpdate(d) && Step(lib, Some(held), d).published.Some?
    ensures Step(lib, Some(held), d).held
         == Some(Sides(Refreshed(held.bids, ParsedPrefix(lib, Data(d).bids), false),
              Refreshed(held.asks, ParsedPrefix(lib, Data(d).asks), true)))
  {
    UpsertAllIsSort(held.bids, ParsedPrefix(lib, Data(d).bids), false);
    UpsertAllIsSort(held.asks, ParsedPrefix(lib, Data(d).asks), true);
  }

  /**
   An update that fails at a bid has changed the bids before it and no ask; one that fails at an ask
   has changed all the bids and the asks before it; neither has cut anything.
   */
  lemma FailedUpdateChanges(lib: Library, ds: seq<Delivery>, i: nat, held: Sides, p: real)
    requires i < |ds| && HeldAt(lib, ds, i) == Some(held) && IsUpdate(ds[i]) && !FullyParses(lib, Data(ds[i]))
    ensures HeldAt(lib, ds, i + 1).Some? && PublishedAt(lib, ds, i) == None
    ensures var after, d := HeldAt(lib, ds, i + 1).value, Data(ds[i]);
            && At(after.bids, p) == AfterChanges(held.bids, ParsedPrefix(lib, d.bids), p)
            && (!AllParse(lib, d.bids) ==> after.asks == held.asks)
            && (AllParse(lib, d.bids) ==> At(after.asks, p) == AfterChanges(held.asks, ParsedPrefix(lib, d.asks), p))
  {
    FailureChanges(lib, held, ds[i], p);
  }

  lemma FailureChanges(lib: Library, held: Sides, d: Delivery, p: real)
    requires IsUpdate(d) && !FullyParses(lib, Data(d))
    ensures Step(lib, Some(held), d).held.Some? && Step(lib, Some(held), d).published == None
    ensures var after := Step(lib, Some(held), d).held.value;
            && At(after.bids, p) == AfterChanges(held.bids, ParsedPrefix(lib, Data(d).bids), p)
            && (!AllParse(lib, Data(d).bids) ==> after.asks == held.asks)
            && (AllParse(lib, Data(d).bids) ==> At(after.asks, p) == AfterChanges(held.asks, ParsedPrefix(lib, Data(d).asks), p))
  {
    UpsertAllAt(held.bids, ParsedPrefix(lib, Data(d).bids), false, p);
    UpsertAllAt(held.asks, ParsedPrefix(lib, Data(d).asks), true, p);
  }

  // ---------------------------------------------------------------- what is returned

  /** Returned quotes are, rank for rank, the numbers of the held texts. */
  ghost predicate QuotesRead(lib: Library, quotes: seq<Quote>, levels: seq<KrakenLevel>) {
    && |quotes| == |levels|
    && forall k :: 0 <= k < |quotes| ==>
         lib.parse(levels[k].priceRaw) == Some(quotes[k].price) && lib.parse(levels[k].qtyRaw) == Some(quotes[k].amount)
  }

  /** A returned book reads the held one, price for price and quantity for amount, between the message's own instants. */
  lemma ReturnedBookReadsHeld(lib: Library, ds: seq<Delivery>, i: nat)
    requires i < |ds| && PublishedAt(lib, ds, i).Some?
    ensures HeldAt(lib, ds, i + 1).Some?
    ensures var b, held := PublishedAt(lib, ds, i).value, HeldAt(lib, ds, i + 1).value;
            && QuotesRead(lib, b.bids, held.bids) && QuotesRead(lib, b.asks, held.asks)
            && b.lastUpdateId == 0 && b.parseStartedAt == ds[i].startedAt && b.parsedAt == ds[i].parsedAt
  {
    ReachableHeldIsGood(lib, ds, i + 1);
    StepReturns(lib, HeldAt(lib, ds, i), ds[i]);
  }

  lemma StepReturns(lib: Library, held: Option<Sides>, d: Delivery)
    requires Step(lib, held, d).published.Some? && GoodHeld(lib, Step(lib, held, d).held)
    ensures Step(lib, held, d).held.Some?
    ensures var b, now := Step(lib, held, d).published.value, Step(lib, held, d).held.value;
            && QuotesRead(lib, b.bids, now.bids) && QuotesRead(lib, b.asks, now.asks)
            && b.lastUpdateId == 0 && b.parseStartedAt == d.startedAt && b.parsedAt == d.parsedAt
  {
    var now := Step(lib, held, d).held.value;
    QuotesOfCoherent(lib, now.bids);
    QuotesOfCoherent(lib, now.asks);
  }

  lemma QuotesOfCoherent(lib: Library, levels: seq<KrakenLevel>)
    requires SideCoherent(lib, levels)
    ensures QuotesRead(lib, ToQuotes(levels), levels)
  {
    forall k | 0 <= k < |levels|
      ensures lib.parse(levels[k].priceRaw) == Some(ToQuotes(levels)[k].price)
      ensures lib.parse(levels[k].qtyRaw) == Some(ToQuotes(levels)[k].amount)
    {
      assert levels[k] in levels && LevelCoherent(lib, levels[k]);
    }
  }
}
