/**
 The merge of lists in any order: it follows the stable sort of the lists with every level raised to
 the worst before it, and comes out in order exactly when that sort takes no list past its first descent.
 */
module MergeOrder {
  import opened Collections
  import opened Model
  import opened Merge
  import opened MergeTheorems
  import opened MergeMonotone
  import opened Sorting

  // ---------------------------------------------------------------- raised lists

  /** The worse of two levels of one list. */
  function Worse(side: Side, a: Quote, b: Quote): Quote {
    if side.Better(a, b) == Greater then a else b
  }

  /** Every level raised to the worst up to it, `floor` included. */
  function RaisedFrom(side: Side, floor: Quote, qs: seq<Quote>): (r: seq<Quote>)
    ensures |r| == |qs|
    decreases qs
  {
    if qs == [] then []
    else
      var q := Worse(side, floor, qs[0]);
      [q] + RaisedFrom(side, q, qs[1..])
  }

  /** Every level raised to the worst up to it: how long it has to wait behind its own list. */
  function Raised(side: Side, qs: seq<Quote>): (r: seq<Quote>)
    ensures |r| == |qs|
  {
    if qs == [] then [] else [qs[0]] + RaisedFrom(side, qs[0], qs[1..])
  }

  function RaisedCursors(cs: seq<Cursor>, side: Side): (ds: seq<Cursor>)
    ensures |ds| == |cs|
    ensures forall i :: 0 <= i < |cs| ==> ds[i] == Cursor(cs[i].venue, Raised(side, cs[i].rest))
  {
    Map(cs, (c: Cursor) => Cursor(c.venue, Raised(side, c.rest)))
  }

  lemma {:induction false} RaisedFromSorted(side: Side, floor: Quote, qs: seq<Quote>)
    ensures BetterSorted(RaisedFrom(side, floor, qs), side)
    ensures forall i :: 0 <= i < |qs| ==> side.Better(floor, RaisedFrom(side, floor, qs)[i]) != Greater
    decreases qs
  {
    if qs != [] {
      RaisedFromSorted(side, Worse(side, floor, qs[0]), qs[1..]);
    }
  }

  lemma RaisedSorted(side: Side, qs: seq<Quote>)
    ensures BetterSorted(Raised(side, qs), side)
  {
    if qs != [] {
      RaisedFromSorted(side, qs[0], qs[1..]);
    }
  }

  // ---------------------------------------------------------------- the merge follows the raised lists

  /**
   `ds` is `cs` raised, after cursor `a` has given the worst level yet, `floor`: only its own next
   level can be better than that.
   */
  ghost predicate Follows(cs: seq<Cursor>, ds: seq<Cursor>, side: Side, a: nat, floor: Quote) {
    && |cs| == |ds| && a < |cs|
    && ds[a] == Cursor(cs[a].venue, RaisedFrom(side, floor, cs[a].rest))
    && (forall j :: 0 <= j < |cs| && j != a ==> ds[j] == Cursor(cs[j].venue, Raised(side, cs[j].rest)))
    && (forall j :: 0 <= j < |cs| && j != a && cs[j].rest != [] ==> side.Better(floor, cs[j].rest[0]) != Greater)
    && (forall j :: 0 <= j < a && cs[j].rest != [] ==> side.Better(floor, cs[j].rest[0]) == Less)
  }

  lemma FollowsBest(cs: seq<Cursor>, ds: seq<Cursor>, side: Side, a: nat, floor: Quote, i: nat)
    requires Follows(cs, ds, side, a, floor) && IsFirstBest(cs, side, i)
    ensures IsFirstBest(ds, side, i)
    ensures Follows(Advance(cs, i), Advance(ds, i), side, i, ds[i].rest[0])
  {
    if i != a && cs[a].rest != [] {
      assert side.Better(floor, cs[a].rest[0]) != Greater;
      assert RaisedFrom(side, floor, cs[a].rest) == Raised(side, cs[a].rest);
    }
  }

  lemma StartFollows(cs: seq<Cursor>, side: Side, i: nat)
    requires IsFirstBest(cs, side, i)
    ensures IsFirstBest(RaisedCursors(cs, side), side, i)
    ensures Follows(Advance(cs, i), Advance(RaisedCursors(cs, side), i), side, i, cs[i].rest[0])
  {
  }

  function Labels(ls: seq<Level>): (r: seq<string>) {
    Map(ls, (l: Level) => l.exchange)
  }

  /** Two merges that take from the same venue and agree on the venues after. */
  lemma SameVenueFirst(cs: seq<Cursor>, ds: seq<Cursor>, side: Side, i: nat, n: nat)
    requires IsFirstBest(cs, side, i) && IsFirstBest(ds, side, i) && cs[i].venue == ds[i].venue
    requires Labels(MergeN(Advance(cs, i), side, n)) == Labels(MergeN(Advance(ds, i), side, n))
    ensures Labels(MergeN(cs, side, n + 1)) == Labels(MergeN(ds, side, n + 1))
  {
    hide MergeN;
    MergeStep(cs, side, n, i);
    MergeStep(ds, side, n, i);
  }

  lemma NothingLeft(cs: seq<Cursor>, ds: seq<Cursor>, side: Side, n: nat)
    requires |cs| == |ds| && forall j :: 0 <= j < |cs| ==> |ds[j].rest| == |cs[j].rest|
    requires n == 0 || Best(cs, side).None?
    ensures MergeN(cs, side, n) == MergeN(ds, side, n) == []
  {
    BestIsFirst(cs, side);
    BestIsFirst(ds, side);
  }

  lemma {:induction false} FollowersMerge(cs: seq<Cursor>, ds: seq<Cursor>, side: Side, a: nat, floor: Quote, n: nat)
    requires Follows(cs, ds, side, a, floor)
    ensures Labels(MergeN(cs, side, n)) == Labels(MergeN(ds, side, n))
    decreases n
  {
    hide MergeN, Labels;
    BestIsFirst(cs, side);
    if n > 0 && Best(cs, side).Some? {
      var i := Best(cs, side).value;
      FollowsBest(cs, ds, side, a, floor, i);
      FollowersMerge(Advance(cs, i), Advance(ds, i), side, i, ds[i].rest[0], n - 1);
      SameVenueFirst(cs, ds, side, i, n - 1);
    } else {
      NothingLeft(cs, ds, side, n);
    }
  }

  lemma RaisedMerge(cs: seq<Cursor>, side: Side, n: nat)
    ensures Labels(MergeN(cs, side, n)) == Labels(MergeN(RaisedCursors(cs, side), side, n))
  {
    hide MergeN, Labels, Raised;
    var ds := RaisedCursors(cs, side);
    BestIsFirst(cs, side);
    if n > 0 && Best(cs, side).Some? {
      var i := Best(cs, side).value;
      StartFollows(cs, side, i);
      FollowersMerge(Advance(cs, i), Advance(ds, i), side, i, cs[i].rest[0], n - 1);
      SameVenueFirst(cs, ds, side, i, n - 1);
    } else {
      NothingLeft(cs, ds, side, n);
    }
  }

  /** The first `n` of the stable sort of the raised lists. */
  function RaisedSort(cs: seq<Cursor>, side: Side, n: nat): seq<Level> {
    Truncate(SortBy(Flatten(RaisedCursors(cs, side)), LevelOrder(side)), n)
  }

  /**
   With no sortedness at all, the merge takes its levels from the venues in the order the stable sort
   of the raised lists does.
   */
  lemma MergeFollowsRaisedSort(cs: seq<Cursor>, side: Side, n: nat)
    ensures Labels(MergeN(cs, side, n)) == Labels(RaisedSort(cs, side, n))
  {
    var ds := RaisedCursors(cs, side);
    forall i | 0 <= i < |ds| ensures BetterSorted(ds[i].rest, side) {
      RaisedSorted(side, cs[i].rest);
    }
    MergeRefinesStableSort(ds, side, n);
    RaisedMerge(cs, side, n);
  }

  /** How many of the first `n` levels of that sort are `v`'s. */
  function Taken(cs: seq<Cursor>, side: Side, n: nat, v: Venue): nat {
    |Filter(RaisedSort(cs, side, n), FromVenue(v))|
  }

  lemma {:induction false} SameLabelsSameCount(xs: seq<Level>, ys: seq<Level>, v: Venue)
    requires Labels(xs) == Labels(ys)
    ensures |Filter(xs, FromVenue(v))| == |Filter(ys, FromVenue(v))|
  {
    assert |xs| == |Labels(xs)| && |ys| == |Labels(ys)|;
    if xs != [] {
      assert Labels(xs)[0] == Labels(ys)[0];
      assert Labels(xs[1..]) == Labels(xs)[1..] && Labels(ys[1..]) == Labels(ys)[1..];
      SameLabelsSameCount(xs[1..], ys[1..], v);
    }
  }

  /** So each venue supplies the first levels of its list, as many as that sort says: with the labels, the whole output. */
  lemma EachVenuesPart(cs: seq<Cursor>, side: Side, n: nat, i: nat)
    requires DistinctVenues(cs) && i < |cs|
    ensures Taken(cs, side, n, cs[i].venue) <= |cs[i].rest|
    ensures Filter(MergeN(cs, side, n), FromVenue(cs[i].venue))
         == TaggedAll(cs[i].venue, cs[i].rest)[..Taken(cs, side, n, cs[i].venue)]
  {
    MergeFollowsRaisedSort(cs, side, n);
    SameLabelsSameCount(MergeN(cs, side, n), RaisedSort(cs, side, n), cs[i].venue);
    MergeTakesPrefixes(cs, side, n, i);
  }

  // ---------------------------------------------------------------- when a merge is in order

  /** An order that never contradicts `Side::better`. */
  ghost predicate Coarsens(le: (Level, Level) -> bool, side: Side) {
    TotalPreorder(le) && forall a, b :: LevelOrder(side)(a, b) ==> le(a, b)
  }

  /** Price order on levels. */
  function ByPrice(side: Side): (Level, Level) -> bool {
    (a: Level, b: Level) => PriceOrder(side)(a.price, b.price)
  }

  lemma OrdersCoarsen(side: Side)
    ensures Coarsens(LevelOrder(side), side) && Coarsens(ByPrice(side), side)
  {
    PriceOrderIsTotal(side);
  }

  /** Neighbours in a merge can only be out of order within one venue. */
  lemma {:induction false} NeighboursOfTwoVenues(cs: seq<Cursor>, side: Side, n: nat, k: nat)
    requires k + 1 < |MergeN(cs, side, n)| && MergeN(cs, side, n)[k].exchange != MergeN(cs, side, n)[k + 1].exchange
    ensures LevelOrder(side)(MergeN(cs, side, n)[k], MergeN(cs, side, n)[k + 1])
    decreases n
  {
    BestIsFirst(cs, side);
    var i := Best(cs, side).value;
    var ds := Advance(cs, i);
    MergeStep(cs, side, n - 1, i);
    if k > 0 {
      NeighboursOfTwoVenues(ds, side, n - 1, k - 1);
    } else {
      BestIsFirst(ds, side);
      var j := Best(ds, side).value;
      MergeStep(ds, side, n - 2, j);
      assert j != i && ds[j] == cs[j];
    }
  }

  lemma FilterNeighbours<T(!new)>(s: seq<T>, p: T -> bool, k: nat) returns (m: nat)
    requires k + 1 < |s| && p(s[k]) && p(s[k + 1])
    ensures m + 1 < |Filter(s, p)| && Filter(s, p)[m] == s[k] && Filter(s, p)[m + 1] == s[k + 1]
  {
    m := |Filter(s[..k], p)|;
    assert s == s[..k] + ([s[k]] + ([s[k + 1]] + s[k + 2..]));
    FilterConcat(s[..k], [s[k]] + ([s[k + 1]] + s[k + 2..]), p);
    FilterCons(s[k], [s[k + 1]] + s[k + 2..], p);
    FilterCons(s[k + 1], s[k + 2..], p);
  }

  /** A merge is in order if and only if each venue's own part of it is. */
  lemma InOrderIffEachVenue(cs: seq<Cursor>, side: Side, n: nat, le: (Level, Level) -> bool)
    requires Coarsens(le, side)
    ensures Sorted(MergeN(cs, side, n), le) <==>
            forall i :: 0 <= i < |cs| ==> Sorted(Filter(MergeN(cs, side, n), FromVenue(cs[i].venue)), le)
  {
    hide MergeN, Filter;
    var out := MergeN(cs, side, n);
    if Sorted(out, le) {
      forall i | 0 <= i < |cs| ensures Sorted(Filter(out, FromVenue(cs[i].venue)), le) {
        FilterSorted(out, FromVenue(cs[i].venue), le);
      }
    } else {
      var a, b :| 0 <= a < b < |out| && !le(out[a], out[b]);
      var k := NeighboursOutOfOrder(out, le, a, b);
      if out[k].exchange != out[k + 1].exchange {
        NeighboursOfTwoVenues(cs, side, n, k);
        assert false;
      }
      MergeInvents(cs, side, n, out[k]);
      var i, q :| 0 <= i < |cs| && 0 <= q < |cs[i].rest| && out[k] == Tagged(cs[i].venue, cs[i].rest[q]);
      var m := FilterNeighbours(out, FromVenue(cs[i].venue), k);
      assert !Sorted(Filter(out, FromVenue(cs[i].venue)), le);
    }
  }

  lemma PricesInOrder(ls: seq<Level>, side: Side)
    ensures Sorted(ls, ByPrice(side)) <==> Sorted(Prices(ls), PriceOrder(side))
  {
    if Sorted(ls, ByPrice(side)) {
      forall i, j | 0 <= i < j < |ls| ensures PriceOrder(side)(Prices(ls)[i], Prices(ls)[j]) {
        assert ByPrice(side)(ls[i], ls[j]);
      }
    }
    if Sorted(Prices(ls), PriceOrder(side)) {
      forall i, j | 0 <= i < j < |ls| ensures ByPrice(side)(ls[i], ls[j]) {
        assert PriceOrder(side)(Prices(ls)[i], Prices(ls)[j]);
      }
    }
  }

  /** How many of its first levels a venue's list has in order. */
  function Run(c: Cursor, le: (Level, Level) -> bool): nat {
    SortedRun(TaggedAll(c.venue, c.rest), le)
  }

  /**
   Exactly when a merge is in order, for lists of any order: when the sort of the raised lists takes
   from no list more levels than come before its first descent.
   */
  lemma InOrderIff(cs: seq<Cursor>, side: Side, n: nat, le: (Level, Level) -> bool)
    requires DistinctVenues(cs) && Coarsens(le, side)
    ensures Sorted(MergeN(cs, side, n), le) <==>
            forall i :: 0 <= i < |cs| ==> Taken(cs, side, n, cs[i].venue) <= Run(cs[i], le)
  {
    hide MergeN, Taken, Filter, Sorted;
    InOrderIffEachVenue(cs, side, n, le);
    forall i | 0 <= i < |cs|
      ensures Sorted(Filter(MergeN(cs, side, n), FromVenue(cs[i].venue)), le) <==>
              Taken(cs, side, n, cs[i].venue) <= Run(cs[i], le)
    {
      EachVenuesPart(cs, side, n, i);
      SortedRunIff(TaggedAll(cs[i].venue, cs[i].rest), le, Taken(cs, side, n, cs[i].venue));
    }
  }

  // ---------------------------------------------------------------- a merge out of order

  /** One venue alone comes out as its list stands. */
  lemma {:induction false} LoneMerge(w: Venue, qs: seq<Quote>, side: Side, n: nat)
    ensures MergeN([Cursor(w, qs)], side, n) == TaggedAll(w, Truncate(qs, n))
    decreases n
  {
    hide MergeN;
    var cs := [Cursor(w, qs)];
    BestIsFirst(cs, side);
    if n > 0 && qs != [] {
      MergeStep(cs, side, n - 1, 0);
      assert Advance(cs, 0) == [Cursor(w, qs[1..])];
      LoneMerge(w, qs[1..], side, n - 1);
      assert Truncate(qs, n) == [qs[0]] + Truncate(qs[1..], n - 1);
    } else {
      NothingLeft(cs, cs, side, n);
    }
  }

  /** A venue whose asks stand 2, 1 is published as 2, 1 under its own label: the best ask comes second. */
  lemma BestAskSecond(v: Venue)
    ensures var book := Book([Quote(0.5, 1.0)], [Quote(2.0, 3.0), Quote(1.0, 4.0)], 0, 0.0, 0.0);
            var summary := MergeResult(map[v := book]);
            var name := if v.Binance? then "binance" else if v.Bitstamp? then "bitstamp" else "kraken";
            && summary.Some? && summary.value.asks == [Level(name, 2.0, 3.0), Level(name, 1.0, 4.0)]
            && !Sorted(summary.value.asks, ByPrice(Ask))
  {
    hide MergeN;
    var book := Book([Quote(0.5, 1.0)], [Quote(2.0, 3.0), Quote(1.0, 4.0)], 0, 0.0, 0.0);
    var venues := map[v := book];
    assert Cursors(venues, Ask) == [Cursor(v, book.asks)];
    assert Cursors(venues, Bid) == [Cursor(v, book.bids)];
    LoneMerge(v, book.asks, Ask, TOP_N);
    LoneMerge(v, book.bids, Bid, TOP_N);
    var asks := MergeResult(venues).value.asks;
    assert asks == TaggedAll(v, book.asks) == [Tagged(v, book.asks[0]), Tagged(v, book.asks[1])];
    BetterMeans(Ask, book.asks[0], book.asks[1]);
    assert !ByPrice(Ask)(asks[0], asks[1]);
  }
}
