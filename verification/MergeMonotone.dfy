/** Price order, depth, fewer venues, the spread and crossed books. */
module MergeMonotone {
  import opened Collections
  import opened Model
  import opened Merge
  import opened MergeTheorems
  import opened Sorting

  // ---------------------------------------------------------------- lists sorted by price only

  function Prices(ls: seq<Level>): (r: seq<real>)
    ensures |r| == |ls|
    ensures forall i :: 0 <= i < |ls| ==> r[i] == ls[i].price
  {
    if ls == [] then [] else [ls[0].price] + Prices(ls[1..])
  }

  lemma PricesCons(l: Level, ls: seq<Level>)
    ensures Prices([l] + ls) == [l.price] + Prices(ls)
  {
    assert ([l] + ls)[1..] == ls;
  }

  lemma PricesConcat(a: seq<Level>, b: seq<Level>)
    ensures Prices(a + b) == Prices(a) + Prices(b)
  {
  }

  /** The price of the first best front against every price left. */
  lemma FrontPriceIsBest(cs: seq<Cursor>, side: Side, i: nat, l: Level)
    requires AllPriceSorted(cs, side) && IsFirstBest(cs, side, i)
    requires l in Flatten(cs)
    ensures PriceOrder(side)(cs[i].rest[0].price, l.price)
  {
    FlattenMember(cs, l);
    var j, k :| 0 <= j < |cs| && 0 <= k < |cs[j].rest| && l == Tagged(cs[j].venue, cs[j].rest[k]);
    assert PriceSorted(cs[j].rest, side);
    assert side.Better(cs[i].rest[0], cs[j].rest[0]) != Greater;
    assert k > 0 ==> PriceOrder(side)(cs[j].rest[0].price, cs[j].rest[k].price);
  }

  lemma PriceSortStep(cs: seq<Cursor>, side: Side, i: nat)
    requires AllPriceSorted(cs, side) && IsFirstBest(cs, side, i)
    ensures SortBy(Prices(Flatten(cs)), PriceOrder(side))
         == [cs[i].rest[0].price] + SortBy(Prices(Flatten(Advance(cs, i))), PriceOrder(side))
  {
    var x := Tagged(cs[i].venue, cs[i].rest[0]);
    var pre, post := Flatten(cs[..i]), After(cs, i);
    FlattenFront(cs, i);
    PricesConcat(pre + [x], post);
    PricesConcat(pre, [x]);
    PricesConcat(pre, post);
    assert Prices([x]) == [x.price];
    forall p | p in Prices(pre) + Prices(post) ensures PriceOrder(side)(x.price, p) {
      var k :| 0 <= k < |pre + post| && p == (pre + post)[k].price;
      assert (pre + post)[k] in Flatten(cs);
      FrontPriceIsBest(cs, side, i, (pre + post)[k]);
    }
    assert forall p :: p in Prices(pre) || p in Prices(post) ==> p in Prices(pre) + Prices(post);
    PullMinimum(Prices(pre), x.price, Prices(post), PriceOrder(side));
  }

  lemma AdvanceKeepsPriceSorted(cs: seq<Cursor>, side: Side, i: nat)
    requires AllPriceSorted(cs, side) && i < |cs| && cs[i].rest != []
    ensures AllPriceSorted(Advance(cs, i), side)
  {
    forall j | 0 <= j < |cs| ensures PriceSorted(Advance(cs, i)[j].rest, side) {
      assert PriceSorted(cs[j].rest, side);
    }
  }

  /**
   With lists sorted by price alone, amounts may come out of order but prices do not: the output's
   prices are exactly the first `n` of all prices sorted.
   */
  lemma {:induction false} MergePricesRefineSort(cs: seq<Cursor>, side: Side, n: nat)
    requires AllPriceSorted(cs, side)
    ensures Prices(MergeN(cs, side, n)) == Truncate(SortBy(Prices(Flatten(cs)), PriceOrder(side)), n)
    decreases n
  {
    if n > 0 && Best(cs, side).Some? {
      MergePricesStep(cs, side, n, Best(cs, side).value);
    } else {
      BestIsFirst(cs, side);
      if n > 0 {
        FlattenEmpty(cs);
      }
    }
  }

  lemma MergePricesStep(cs: seq<Cursor>, side: Side, n: nat, i: nat)
    requires AllPriceSorted(cs, side) && n > 0 && Best(cs, side) == Some(i)
    ensures Prices(MergeN(cs, side, n)) == Truncate(SortBy(Prices(Flatten(cs)), PriceOrder(side)), n)
    decreases n, 0
  {
    hide MergeN, SortBy, Flatten, Prices, PriceOrder, IsFirstBest, AllPriceSorted;
    BestIsFirst(cs, side);
    var x, later := Tagged(cs[i].venue, cs[i].rest[0]), MergeN(Advance(cs, i), side, n - 1);
    var sorted := SortBy(Prices(Flatten(Advance(cs, i))), PriceOrder(side));
    assert Prices(later) == Truncate(sorted, n - 1) by {
      AdvanceKeepsPriceSorted(cs, side, i);
      MergePricesRefineSort(Advance(cs, i), side, n - 1);
    }
    PriceSortStep(cs, side, i);
    MergeStep(cs, side, n - 1, i);
    PricesOfStep(x, later, sorted, n - 1);
  }

  lemma PricesOfStep(x: Level, later: seq<Level>, sorted: seq<real>, n: nat)
    requires Prices(later) == Truncate(sorted, n)
    ensures Prices([x] + later) == Truncate([x.price] + sorted, n + 1)
  {
    PricesCons(x, later);
    TruncateCons(x.price, sorted, n);
  }

  /** `Better` spelled out: the better price first, the larger amount among equal prices, equal only on equal quotes. */
  lemma BetterMeans(side: Side, a: Quote, b: Quote)
    ensures side.Better(a, b) == Less <==>
            if a.price == b.price then a.amount > b.amount else PriceOrder(side)(a.price, b.price)
    ensures side.Better(a, b) == Equal <==> a == b
    ensures side.Better(a, b) == Greater <==> side.Better(b, a) == Less
    ensures PriceOrder(Ask)(a.price, b.price) <==> a.price <= b.price
    ensures PriceOrder(Bid)(a.price, b.price) <==> a.price >= b.price
  {
  }

  lemma PriceOrderIsTotal(side: Side)
    ensures TotalPreorder(PriceOrder(side)) && TotalPreorder(LevelOrder(side))
  {
  }

  /** So the output is sorted by price whenever the lists are. */
  lemma MergeKeepsPriceOrder(cs: seq<Cursor>, side: Side, n: nat)
    requires AllPriceSorted(cs, side)
    ensures Sorted(Prices(MergeN(cs, side, n)), PriceOrder(side))
  {
    MergePricesRefineSort(cs, side, n);
    PriceOrderIsTotal(side);
    SortSorted(Prices(Flatten(cs)), PriceOrder(side));
  }

  // ---------------------------------------------------------------- depth

  /** Every list cut to its first `n` levels. */
  function CutTo(cs: seq<Cursor>, n: nat): (r: seq<Cursor>)
    ensures |r| == |cs|
    ensures forall i {:trigger r[i]} :: 0 <= i < |cs| ==> r[i] == Cursor(cs[i].venue, Truncate(cs[i].rest, n))
  {
    Map(cs, (c: Cursor) => c.(rest := Truncate(c.rest, n)))
  }

  lemma {:induction false} CutSameBestAmong(cs: seq<Cursor>, side: Side, n: nat, k: nat)
    requires n > 0 && k <= |cs|
    ensures BestAmong(CutTo(cs, n), side, k) == BestAmong(cs, side, k)
  {
    if k > 0 {
      CutSameBestAmong(cs, side, n, k - 1);
      assert CutTo(cs, n)[k - 1].rest == [] <==> cs[k - 1].rest == [];
    }
  }

  lemma CutAdvance(cs: seq<Cursor>, n: nat, i: nat)
    requires n > 0 && i < |cs| && cs[i].rest != []
    ensures CutTo(cs, n)[i].rest != [] && CutTo(cs, n)[i].venue == cs[i].venue && CutTo(cs, n)[i].rest[0] == cs[i].rest[0]
    ensures CutTo(Advance(CutTo(cs, n), i), n - 1) == CutTo(Advance(cs, i), n - 1)
  {
    var left, right := CutTo(Advance(CutTo(cs, n), i), n - 1), CutTo(Advance(cs, i), n - 1);
    forall j | 0 <= j < |cs| ensures left[j] == right[j] {
      if j == i {
        assert Truncate(Truncate(cs[j].rest, n)[1..], n - 1) == Truncate(cs[j].rest[1..], n - 1);
      } else {
        assert Truncate(Truncate(cs[j].rest, n), n - 1) == Truncate(cs[j].rest, n - 1);
      }
    }
  }

  lemma SameStepSameMerge(cs: seq<Cursor>, ds: seq<Cursor>, side: Side, n: nat)
    requires n > 0 && Best(cs, side) == Best(ds, side)
    requires Best(cs, side).Some? ==>
        var i := Best(cs, side).value;
        && Tagged(cs[i].venue, cs[i].rest[0]) == Tagged(ds[i].venue, ds[i].rest[0])
        && MergeN(Advance(cs, i), side, n - 1) == MergeN(Advance(ds, i), side, n - 1)
    ensures MergeN(cs, side, n) == MergeN(ds, side, n)
  {
    MergeUnfold(cs, side, n);
    MergeUnfold(ds, side, n);
  }

  lemma CutStep(cs: seq<Cursor>, side: Side, n: nat)
    requires n > 0 && Best(cs, side).Some?
    ensures var i, ds := Best(cs, side).value, CutTo(cs, n);
            && ds[i].rest != [] && Tagged(ds[i].venue, ds[i].rest[0]) == Tagged(cs[i].venue, cs[i].rest[0])
            && CutTo(Advance(ds, i), n - 1) == CutTo(Advance(cs, i), n - 1)
  {
    CutAdvance(cs, n, Best(cs, side).value);
  }

  lemma CutSameBest(cs: seq<Cursor>, side: Side, n: nat)
    requires n > 0
    ensures Best(CutTo(cs, n), side) == Best(cs, side)
  {
    CutSameBestAmong(cs, side, n, |cs|);
  }

  /** Lists that agree in their first `n` levels offer the same choice, and then agree in `n - 1`. */
  lemma TwinStep(cs: seq<Cursor>, ds: seq<Cursor>, side: Side, n: nat)
    requires n > 0 && CutTo(cs, n) == CutTo(ds, n)
    ensures Best(cs, side) == Best(ds, side)
    ensures Best(cs, side).Some? ==>
        var i := Best(cs, side).value;
        && Tagged(cs[i].venue, cs[i].rest[0]) == Tagged(ds[i].venue, ds[i].rest[0])
        && CutTo(Advance(cs, i), n - 1) == CutTo(Advance(ds, i), n - 1)
  {
    CutSameBest(cs, side, n);
    CutSameBest(ds, side, n);
    if Best(cs, side).Some? {
      CutStep(cs, side, n);
      CutStep(ds, side, n);
    }
  }

  /** No level behind the `n`-th of its own list can matter, sorted or not. */
  lemma {:induction false} MergeDepth(cs: seq<Cursor>, ds: seq<Cursor>, side: Side, n: nat)
    requires CutTo(cs, n) == CutTo(ds, n)
    ensures MergeN(cs, side, n) == MergeN(ds, side, n)
    decreases n
  {
    if n > 0 {
      if Best(cs, side).Some? {
        var i := Best(cs, side).value;
        assert Best(ds, side) == Some(i) by {
          TwinStep(cs, ds, side, n);
        }
        assert MergeN(Advance(cs, i), side, n - 1) == MergeN(Advance(ds, i), side, n - 1) by {
          TwinStep(cs, ds, side, n);
          MergeDepth(Advance(cs, i), Advance(ds, i), side, n - 1);
        }
      }
      TwinStep(cs, ds, side, n);
      SameStepSameMerge(cs, ds, side, n);
    }
  }

  /** Books whose lists agree in their first ten levels on both sides. */
  ghost predicate SameTop(a: map<Venue, Book>, b: map<Venue, Book>) {
    && a.Keys == b.Keys
    && forall v :: v in a ==>
        && Truncate(a[v].bids, TOP_N) == Truncate(b[v].bids, TOP_N)
        && Truncate(a[v].asks, TOP_N) == Truncate(b[v].asks, TOP_N)
  }

  /** The summary depends on nothing but each list's first ten levels. */
  lemma DepthIndependence(a: map<Venue, Book>, b: map<Venue, Book>)
    requires SameTop(a, b)
    ensures MergeResult(a) == MergeResult(b)
  {
    SameCutCursors(a, b, Bid);
    SameCutCursors(a, b, Ask);
    MergeDepth(Cursors(a, Bid), Cursors(b, Bid), Bid, TOP_N);
    MergeDepth(Cursors(a, Ask), Cursors(b, Ask), Ask, TOP_N);
  }

  lemma SameCutCursors(a: map<Venue, Book>, b: map<Venue, Book>, side: Side)
    requires SameTop(a, b)
    ensures CutTo(Cursors(a, side), TOP_N) == CutTo(Cursors(b, side), TOP_N)
  {
    CutCursors(a, side, TOP_N);
    CutCursors(b, side, TOP_N);
    SameCutCursor(a, b, side, Binance);
    SameCutCursor(a, b, side, Bitstamp);
    SameCutCursor(a, b, side, Kraken);
  }

  lemma SameCutCursor(a: map<Venue, Book>, b: map<Venue, Book>, side: Side, v: Venue)
    requires SameTop(a, b)
    ensures CutTo(CursorFor(a, v, side), TOP_N) == CutTo(CursorFor(b, v, side), TOP_N)
  {
    assert v in a.Keys <==> v in b.Keys;
  }

  lemma CutCursors(venues: map<Venue, Book>, side: Side, n: nat)
    ensures CutTo(Cursors(venues, side), n)
         == CutTo(CursorFor(venues, Binance, side), n) + CutTo(CursorFor(venues, Bitstamp, side), n)
            + CutTo(CursorFor(venues, Kraken, side), n)
  {
  }

  // ---------------------------------------------------------------- venue order

  function Lane(venues: map<Venue, Book>, v: Venue, side: Side): seq<Level> {
    if v in venues then TaggedAll(v, side.Levels(venues[v])) else []
  }

  lemma FlattenLanes(venues: map<Venue, Book>, side: Side)
    ensures Flatten(Cursors(venues, side))
         == Lane(venues, Binance, side) + Lane(venues, Bitstamp, side) + Lane(venues, Kraken, side)
  {
    var a, b, c := CursorFor(venues, Binance, side), CursorFor(venues, Bitstamp, side), CursorFor(venues, Kraken, side);
    FlattenConcat(a + b, c);
    FlattenConcat(a, b);
    FlattenLane(venues, Binance, side);
    FlattenLane(venues, Bitstamp, side);
    FlattenLane(venues, Kraken, side);
  }

  lemma FlattenLane(venues: map<Venue, Book>, v: Venue, side: Side)
    ensures Flatten(CursorFor(venues, v, side)) == Lane(venues, v, side)
  {
    if v in venues {
      assert CursorFor(venues, v, side)[1..] == [];
    }
  }

  /** Every book's list on this side is sorted: by price and amount, or by price alone. */
  ghost predicate BooksBetterSorted(venues: map<Venue, Book>, side: Side) {
    forall v :: v in venues ==> BetterSorted(side.Levels(venues[v]), side)
  }

  ghost predicate BooksPriceSorted(venues: map<Venue, Book>, side: Side) {
    forall v :: v in venues ==> PriceSorted(side.Levels(venues[v]), side)
  }

  lemma SortedCursors(venues: map<Venue, Book>, side: Side)
    ensures BooksBetterSorted(venues, side) ==> AllBetterSorted(Cursors(venues, side), side)
    ensures BooksPriceSorted(venues, side) ==> AllPriceSorted(Cursors(venues, side), side)
  {
    CursorsCover(venues, side);
  }

  /** For sorted books the merge is the stable sort of Binance's levels, then Bitstamp's, then Kraken's. */
  lemma BooksMergeAsSort(venues: map<Venue, Book>, side: Side, n: nat)
    requires BooksBetterSorted(venues, side)
    ensures MergeN(Cursors(venues, side), side, n)
         == Truncate(SortBy(Lane(venues, Binance, side) + Lane(venues, Bitstamp, side) + Lane(venues, Kraken, side),
              LevelOrder(side)), n)
  {
    SortedCursors(venues, side);
    MergeRefinesStableSort(Cursors(venues, side), side, n);
    FlattenLanes(venues, side);
  }

  // ---------------------------------------------------------------- the best level

  /** Whatever the lists, rank 0 is one venue's own first level and no venue's first level beats it. */
  lemma BestOfFirsts(venues: map<Venue, Book>, side: Side, n: nat)
    requires n > 0
    ensures MergeN(Cursors(venues, side), side, n) == [] <==> forall v :: v in venues ==> side.Levels(venues[v]) == []
    ensures MergeN(Cursors(venues, side), side, n) != [] ==>
        var l := MergeN(Cursors(venues, side), side, n)[0];
        && (exists v :: v in venues && side.Levels(venues[v]) != [] && l == Tagged(v, side.Levels(venues[v])[0]))
        && (forall v :: v in venues && side.Levels(venues[v]) != [] ==>
              PriceOrder(side)(l.price, side.Levels(venues[v])[0].price))
  {
    var cs := Cursors(venues, side);
    BestIsFirst(cs, side);
    CursorsCover(venues, side);
    if Best(cs, side).Some? {
      var i := Best(cs, side).value;
      MergeStep(cs, side, n - 1, i);
      var l := MergeN(cs, side, n)[0];
      assert cs[i].venue in venues && l == Tagged(cs[i].venue, side.Levels(venues[cs[i].venue])[0]);
      forall v | v in venues && side.Levels(venues[v]) != []
        ensures PriceOrder(side)(l.price, side.Levels(venues[v])[0].price)
      {
        var j :| 0 <= j < |cs| && cs[j].venue == v;
        assert side.Better(cs[i].rest[0], cs[j].rest[0]) != Greater;
      }
    }
  }

  lemma CursorsCover(venues: map<Venue, Book>, side: Side)
    ensures forall i :: 0 <= i < |Cursors(venues, side)| ==>
        var c := Cursors(venues, side)[i]; c.venue in venues && c.rest == side.Levels(venues[c.venue])
    ensures forall v :: v in venues ==> exists i :: 0 <= i < |Cursors(venues, side)| && Cursors(venues, side)[i].venue == v
  {
    var cs := Cursors(venues, side);
    forall v | v in venues ensures exists i :: 0 <= i < |cs| && cs[i].venue == v {
      CursorPlace(venues, side, v);
    }
  }

  lemma CursorPlace(venues: map<Venue, Book>, side: Side, v: Venue)
    requires v in venues
    ensures exists i :: 0 <= i < |Cursors(venues, side)| && Cursors(venues, side)[i] == Cursor(v, side.Levels(venues[v]))
  {
    var a, b := |CursorFor(venues, Binance, side)|, |CursorFor(venues, Bitstamp, side)|;
    var place := match v case Binance => 0 case Bitstamp => a case Kraken => a + b;
    assert Cursors(venues, side)[place] == Cursor(v, side.Levels(venues[v]));
  }

  lemma CursorsDistinct(venues: map<Venue, Book>, side: Side)
    ensures DistinctVenues(Cursors(venues, side))
  {
  }

  // ---------------------------------------------------------------- fewer venues and the spread

  ghost predicate SubVenues(sub: map<Venue, Book>, full: map<Venue, Book>) {
    forall v :: v in sub ==> v in full && sub[v] == full[v]
  }

  lemma RoundMonotone(x: real, y: real)
    requires x <= y
    ensures Round(x) <= Round(y)
  {
  }

  lemma SpreadMonotone(bid: real, ask: real, bid': real, ask': real)
    requires bid >= bid' && ask <= ask'
    ensures Spread(bid, ask) <= Spread(bid', ask')
  {
    RoundMonotone((ask - bid) * 100000000.0, (ask' - bid') * 100000000.0);
  }

  lemma RoundWhole(k: int)
    ensures Round(k as real) == k
  {
    assert (k as real + 0.5).Floor == k && (0.5 - k as real).Floor == -k;
  }

  /** On prices that are whole 8-decimal ticks the rounding changes nothing. */
  lemma SpreadExactOnTicks(bid: int, ask: int)
    ensures Spread(bid as real / 100000000.0, ask as real / 100000000.0) == (ask - bid) as real / 100000000.0
  {
    var tick := 100000000.0;
    assert (ask as real / tick - bid as real / tick) * tick == (ask - bid) as real;
    RoundWhole(ask - bid);
  }

  /** With fewer venues a side is no better at its front, and empty if it was. */
  lemma FewerVenuesNoBetterFront(sub: map<Venue, Book>, full: map<Venue, Book>, side: Side, n: nat)
    requires SubVenues(sub, full) && n > 0 && MergeN(Cursors(sub, side), side, n) != []
    ensures MergeN(Cursors(full, side), side, n) != []
    ensures PriceOrder(side)(MergeN(Cursors(full, side), side, n)[0].price, MergeN(Cursors(sub, side), side, n)[0].price)
  {
    BestOfFirsts(sub, side, n);
    BestOfFirsts(full, side, n);
  }

  /** If the smaller merge still publishes, so does the larger, and its spread is no wider. */
  lemma FewerVenuesNeverNarrowSpread(sub: map<Venue, Book>, full: map<Venue, Book>)
    requires SubVenues(sub, full) && MergeResult(sub).Some?
    ensures MergeResult(full).Some?
    ensures MergeResult(full).value.spread <= MergeResult(sub).value.spread
  {
    FewerVenuesNoBetterFront(sub, full, Bid, TOP_N);
    FewerVenuesNoBetterFront(sub, full, Ask, TOP_N);
    var s, f := MergeResult(sub).value, MergeResult(full).value;
    SpreadMonotone(f.bids[0].price, f.asks[0].price, s.bids[0].price, s.asks[0].price);
  }

  /** A venue whose own book is not crossed. */
  ghost predicate Uncrossed(book: Book) {
    book.bids != [] && book.asks != [] ==> book.bids[0].price < book.asks[0].price
  }

  /** However slightly a merge of uncrossed books is crossed, its fronts are of two venues. */
  lemma CrossingNeedsTwoVenues(venues: map<Venue, Book>)
    requires forall v :: v in venues ==> Uncrossed(venues[v])
    requires MergeResult(venues).Some? && MergeResult(venues).value.asks[0].price < MergeResult(venues).value.bids[0].price
    ensures MergeResult(venues).value.bids[0].exchange != MergeResult(venues).value.asks[0].exchange
  {
    BestOfFirsts(venues, Bid, TOP_N);
    BestOfFirsts(venues, Ask, TOP_N);
    var s := MergeResult(venues).value;
    var v :| v in venues && venues[v].bids != [] && s.bids[0] == Tagged(v, venues[v].bids[0]);
    var w :| w in venues && venues[w].asks != [] && s.asks[0] == Tagged(w, venues[w].asks[0]);
    assert Uncrossed(venues[v]);
    NameInjective(v, w);
  }

  /** So a negative published spread between uncrossed books takes two venues. */
  lemma NegativeSpreadNeedsTwoVenues(venues: map<Venue, Book>)
    requires forall v :: v in venues ==> Uncrossed(venues[v])
    requires MergeResult(venues).Some? && MergeResult(venues).value.spread < 0.0
    ensures MergeResult(venues).value.bids[0].exchange != MergeResult(venues).value.asks[0].exchange
  {
    var s := MergeResult(venues).value;
    assert s.asks[0].price < s.bids[0].price;
    CrossingNeedsTwoVenues(venues);
  }
}
