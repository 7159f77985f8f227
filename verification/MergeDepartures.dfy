/**
 What the merge of the remaining venues has to do with the merge of all of them: when venues leave,
 surviving ranks get no better exactly as long as what the survivors publish is itself in order.
 */
module MergeDepartures {
  import opened Collections
  import opened Model
  import opened Merge
  import opened MergeTheorems
  import opened MergeMonotone
  import opened MergeOrder
  import opened Sorting

  // ---------------------------------------------------------------- cursors that stay

  function OfKept(keep: Venue -> bool): Cursor -> bool {
    (c: Cursor) => keep(c.venue)
  }

  /** The cursors of the venues that stay. */
  function Kept(cs: seq<Cursor>, keep: Venue -> bool): seq<Cursor> {
    Filter(cs, OfKept(keep))
  }

  lemma KeptSplit(cs: seq<Cursor>, i: nat, keep: Venue -> bool)
    requires i < |cs|
    ensures Kept(cs, keep) == Kept(cs[..i], keep) + (if keep(cs[i].venue) then [cs[i]] else []) + Kept(cs[i + 1..], keep)
  {
    assert cs == cs[..i] + ([cs[i]] + cs[i + 1..]);
    FilterConcat(cs[..i], [cs[i]] + cs[i + 1..], OfKept(keep));
    FilterCons(cs[i], cs[i + 1..], OfKept(keep));
  }

  /** Where a kept cursor stands among the kept ones. */
  function Place(cs: seq<Cursor>, i: nat, keep: Venue -> bool): nat
    requires i <= |cs|
  {
    |Kept(cs[..i], keep)|
  }

  /** Advancing a kept cursor is advancing it among the kept; advancing another leaves them alone. */
  lemma KeptAdvance(cs: seq<Cursor>, i: nat, keep: Venue -> bool)
    requires i < |cs| && cs[i].rest != []
    ensures keep(cs[i].venue) ==>
        && Place(cs, i, keep) < |Kept(cs, keep)| && Kept(cs, keep)[Place(cs, i, keep)] == cs[i]
        && Kept(Advance(cs, i), keep) == Advance(Kept(cs, keep), Place(cs, i, keep))
    ensures !keep(cs[i].venue) ==> Kept(Advance(cs, i), keep) == Kept(cs, keep)
  {
    var ds := Advance(cs, i);
    KeptSplit(cs, i, keep);
    KeptSplit(ds, i, keep);
    assert ds[..i] == cs[..i] && ds[i + 1..] == cs[i + 1..];
  }

  lemma KeptBest(cs: seq<Cursor>, side: Side, i: nat, keep: Venue -> bool)
    requires IsFirstBest(cs, side, i) && keep(cs[i].venue)
    ensures IsFirstBest(Kept(cs, keep), side, Place(cs, i, keep))
  {
    var bs, p := Kept(cs, keep), Place(cs, i, keep);
    KeptSplit(cs, i, keep);
    forall j | 0 <= j < |bs| && bs[j].rest != []
      ensures side.Better(cs[i].rest[0], bs[j].rest[0]) != Greater
      ensures j < p ==> side.Better(cs[i].rest[0], bs[j].rest[0]) == Less
    {
      FilterElements(cs, OfKept(keep));
      FilterElements(cs[..i], OfKept(keep));
      assert bs[j] in cs;
      if j < p {
        assert bs[j] == Kept(cs[..i], keep)[j] && bs[j] in cs[..i];
      }
    }
  }

  lemma NoneKept(cs: seq<Cursor>, side: Side, n: nat, keep: Venue -> bool)
    requires Best(cs, side).None?
    ensures MergeN(cs, side, n) == MergeN(Kept(cs, keep), side, n) == []
  {
    BestIsFirst(cs, side);
    BestIsFirst(Kept(cs, keep), side);
    FilterElements(cs, OfKept(keep));
    assert forall c :: c in Kept(cs, keep) ==> c.rest == [];
  }

  /** The best among the kept is no better than the best of all. */
  lemma KeptFrontNoBetter(cs: seq<Cursor>, side: Side, i: nat, n: nat, keep: Venue -> bool)
    requires IsFirstBest(cs, side, i) && n > 0 && MergeN(Kept(cs, keep), side, n) != []
    ensures LevelOrder(side)(Tagged(cs[i].venue, cs[i].rest[0]), MergeN(Kept(cs, keep), side, n)[0])
  {
    var bs := Kept(cs, keep);
    BestIsFirst(bs, side);
    FilterElements(cs, OfKept(keep));
    var j := Best(bs, side).value;
    MergeStep(bs, side, n - 1, j);
    assert bs[j] in cs;
  }

  lemma {:induction false} MergePrefix(cs: seq<Cursor>, side: Side, n: nat)
    ensures |MergeN(cs, side, n)| <= n
    ensures MergeN(cs, side, n) == Truncate(MergeN(cs, side, n + 1), n)
    decreases n
  {
    BestIsFirst(cs, side);
    if n > 0 && Best(cs, side).Some? {
      var i := Best(cs, side).value;
      var ds := Advance(cs, i);
      MergePrefix(ds, side, n - 1);
      MergeStep(cs, side, n - 1, i);
      MergeStep(cs, side, n, i);
      TruncateCons(Tagged(cs[i].venue, cs[i].rest[0]), MergeN(ds, side, n), n - 1);
    }
  }

  // ---------------------------------------------------------------- leaving improves nothing that is in order

  /** One more level in front of a dominating list keeps it dominating a sorted one. */
  lemma ShiftDominates(x: Level, f: seq<Level>, s: seq<Level>, le: (Level, Level) -> bool, n: nat)
    requires TotalPreorder(le) && Sorted(s, le) && |s| <= n + 1
    requires s != [] ==> le(x, s[0])
    requires Dominates(f, Truncate(s, n), le)
    ensures Dominates([x] + f, s, le)
  {
    forall k | 0 <= k < |s| ensures le(([x] + f)[k], s[k]) {
      if k > 0 {
        assert le(f[k - 1], Truncate(s, n)[k - 1]) && le(s[k - 1], s[k]);
      }
    }
  }

  /** Wherever the survivors' merge is in order, the merge of all is at least as good at every rank. */
  lemma {:induction false} DepartureDominates(cs: seq<Cursor>, side: Side, n: nat, keep: Venue -> bool, le: (Level, Level) -> bool)
    requires Coarsens(le, side) && Sorted(MergeN(Kept(cs, keep), side, n), le)
    ensures Dominates(MergeN(cs, side, n), MergeN(Kept(cs, keep), side, n), le)
    decreases n
  {
    if n > 0 && Best(cs, side).Some? {
      BestIsFirst(cs, side);
      var i := Best(cs, side).value;
      MergeStep(cs, side, n - 1, i);
      if keep(cs[i].venue) {
        KeptDominates(cs, side, n, i, keep, le);
      } else {
        GoneDominates(cs, side, n, i, keep, le);
      }
    } else if n > 0 {
      NoneKept(cs, side, n, keep);
    }
  }

  lemma KeptDominates(cs: seq<Cursor>, side: Side, n: nat, i: nat, keep: Venue -> bool, le: (Level, Level) -> bool)
    requires Coarsens(le, side) && Sorted(MergeN(Kept(cs, keep), side, n), le)
    requires n > 0 && IsFirstBest(cs, side, i) && keep(cs[i].venue)
    ensures Dominates(MergeN(cs, side, n), MergeN(Kept(cs, keep), side, n), le)
    decreases n, 0
  {
    hide MergeN, Kept, Sorted, Dominates;
    var x := Tagged(cs[i].venue, cs[i].rest[0]);
    var f, s := MergeN(Advance(cs, i), side, n - 1), MergeN(Kept(Advance(cs, i), keep), side, n - 1);
    assert MergeN(cs, side, n) == [x] + f by {
      MergeStep(cs, side, n - 1, i);
    }
    assert MergeN(Kept(cs, keep), side, n) == [x] + s by {
      KeptStep(cs, side, n - 1, i, keep);
    }
    SortedCons(x, s, le);
    assert Dominates(f, s, le) by {
      DepartureDominates(Advance(cs, i), side, n - 1, keep, le);
    }
    ConsDominates(x, f, s, le);
  }

  /** A kept best is the next level of the survivors' merge too. */
  lemma KeptStep(cs: seq<Cursor>, side: Side, n: nat, i: nat, keep: Venue -> bool)
    requires IsFirstBest(cs, side, i) && keep(cs[i].venue)
    ensures MergeN(Kept(cs, keep), side, n + 1)
         == [Tagged(cs[i].venue, cs[i].rest[0])] + MergeN(Kept(Advance(cs, i), keep), side, n)
  {
    KeptAdvance(cs, i, keep);
    KeptBest(cs, side, i, keep);
    MergeStep(Kept(cs, keep), side, n, Place(cs, i, keep));
  }

  lemma ConsDominates(x: Level, f: seq<Level>, s: seq<Level>, le: (Level, Level) -> bool)
    requires TotalPreorder(le) && Dominates(f, s, le)
    ensures Dominates([x] + f, [x] + s, le)
  {
    forall k | 0 <= k < |s| + 1 ensures le(([x] + f)[k], ([x] + s)[k]) {
      if k > 0 {
        assert le(f[k - 1], s[k - 1]);
      }
    }
  }

  lemma GoneDominates(cs: seq<Cursor>, side: Side, n: nat, i: nat, keep: Venue -> bool, le: (Level, Level) -> bool)
    requires Coarsens(le, side) && Sorted(MergeN(Kept(cs, keep), side, n), le)
    requires n > 0 && IsFirstBest(cs, side, i) && !keep(cs[i].venue)
    ensures Dominates(MergeN(cs, side, n), MergeN(Kept(cs, keep), side, n), le)
    decreases n, 0
  {
    hide MergeN, Kept, Sorted, Dominates;
    var x := Tagged(cs[i].venue, cs[i].rest[0]);
    var f, s := MergeN(Advance(cs, i), side, n - 1), MergeN(Kept(cs, keep), side, n);
    assert MergeN(cs, side, n) == [x] + f by {
      MergeStep(cs, side, n - 1, i);
    }
    assert s != [] ==> le(x, s[0]) by {
      if s != [] {
        KeptFrontNoBetter(cs, side, i, n, keep);
      }
    }
    assert |s| <= n && Dominates(f, Truncate(s, n - 1), le) by {
      MergePrefix(Kept(cs, keep), side, n - 1);
      MergePrefix(Kept(cs, keep), side, n);
      SortedPrefix(s, n - 1, le);
      KeptAdvance(cs, i, keep);
      DepartureDominates(Advance(cs, i), side, n - 1, keep, le);
    }
    ShiftDominates(x, f, s, le, n - 1);
  }

  lemma SortedPrefix(s: seq<Level>, n: nat, le: (Level, Level) -> bool)
    requires Sorted(s, le)
    ensures Sorted(Truncate(s, n), le)
  {
  }

  // ---------------------------------------------------------------- leaving improves a rank that is not

  /** With nothing left of the others, all cursors merge as the kept ones. */
  lemma {:induction false} OthersUsedUp(cs: seq<Cursor>, side: Side, n: nat, keep: Venue -> bool)
    requires forall i :: 0 <= i < |cs| && !keep(cs[i].venue) ==> cs[i].rest == []
    ensures MergeN(cs, side, n) == MergeN(Kept(cs, keep), side, n)
    decreases n
  {
    BestIsFirst(cs, side);
    if Best(cs, side).None? {
      NoneKept(cs, side, n, keep);
    } else if n > 0 {
      var i := Best(cs, side).value;
      MergeStep(cs, side, n - 1, i);
      KeptStep(cs, side, n - 1, i, keep);
      OthersUsedUp(Advance(cs, i), side, n - 1, keep);
    }
  }

  /** All venues but `v`. */
  function Without(v: Venue): Venue -> bool {
    (w: Venue) => w != v
  }

  /** `v` has one level left, of a price strictly better than the survivors' rank `k`. */
  ghost predicate Ahead(cs: seq<Cursor>, side: Side, n: nat, k: nat, v: Venue, j: nat) {
    && DistinctVenues(cs) && j < |cs| && cs[j].venue == v && |cs[j].rest| == 1
    && k < |MergeN(Kept(cs, Without(v)), side, n)|
    && !PriceOrder(side)(MergeN(Kept(cs, Without(v)), side, n)[k].price, cs[j].rest[0].price)
  }

  /** Such a level pushes that rank one further back. */
  lemma {:induction false} PushedBack(cs: seq<Cursor>, side: Side, n: nat, k: nat, v: Venue, j: nat)
    requires Ahead(cs, side, n, k, v, j)
    ensures |MergeN(cs, side, n + 1)| > k + 1
    ensures MergeN(cs, side, n + 1)[k + 1] == MergeN(Kept(cs, Without(v)), side, n)[k]
    decreases n
  {
    hide MergeN, Kept;
    BestIsFirst(cs, side);
    MergePrefix(Kept(cs, Without(v)), side, n);
    var i := Best(cs, side).value;
    MergeStep(cs, side, n, i);
    if i == j {
      KeptAdvance(cs, i, Without(v));
      OthersUsedUp(Advance(cs, i), side, n, Without(v));
    } else {
      KeptStep(cs, side, n - 1, i, Without(v));
      if k > 0 {
        assert Advance(cs, i)[j] == cs[j];
        PushedBack(Advance(cs, i), side, n - 1, k - 1, v, j);
      }
    }
  }

  // ---------------------------------------------------------------- venues

  /** Keeping the cursors of `sub` leaves the cursors of `sub`. */
  lemma KeptCursors(sub: map<Venue, Book>, full: map<Venue, Book>, side: Side, keep: Venue -> bool)
    requires SubVenues(sub, full) && forall v :: v in full ==> (keep(v) <==> v in sub)
    ensures Kept(Cursors(full, side), keep) == Cursors(sub, side)
  {
    var a, b, c := CursorFor(full, Binance, side), CursorFor(full, Bitstamp, side), CursorFor(full, Kraken, side);
    FilterConcat(a + b, c, OfKept(keep));
    FilterConcat(a, b, OfKept(keep));
    KeptCursor(sub, full, side, keep, Binance);
    KeptCursor(sub, full, side, keep, Bitstamp);
    KeptCursor(sub, full, side, keep, Kraken);
  }

  lemma KeptCursor(sub: map<Venue, Book>, full: map<Venue, Book>, side: Side, keep: Venue -> bool, v: Venue)
    requires SubVenues(sub, full) && (v in full ==> (keep(v) <==> v in sub))
    ensures Filter(CursorFor(full, v, side), OfKept(keep)) == CursorFor(sub, v, side)
  {
    FilterAllOrNothing(CursorFor(full, v, side), OfKept(keep));
  }

  /** Leaving venues out improves no surviving rank, if the survivors' merge is in order; the others' lists may be anything. */
  lemma FewerVenuesDominated(sub: map<Venue, Book>, full: map<Venue, Book>, side: Side, n: nat, le: (Level, Level) -> bool)
    requires SubVenues(sub, full) && Coarsens(le, side) && Sorted(MergeN(Cursors(sub, side), side, n), le)
    ensures Dominates(MergeN(Cursors(full, side), side, n), MergeN(Cursors(sub, side), side, n), le)
  {
    var keep := (v: Venue) => v in sub;
    KeptCursors(sub, full, side, keep);
    DepartureDominates(Cursors(full, side), side, n, keep, le);
  }

  /** In particular if the survivors' books are sorted by price and amount. */
  lemma FewerVenuesNoBetter(sub: map<Venue, Book>, full: map<Venue, Book>, side: Side, n: nat)
    requires SubVenues(sub, full) && BooksBetterSorted(sub, side)
    ensures Dominates(MergeN(Cursors(full, side), side, n), MergeN(Cursors(sub, side), side, n), LevelOrder(side))
  {
    OrdersCoarsen(side);
    SortedCursors(sub, side);
    MergeRefinesStableSort(Cursors(sub, side), side, n);
    SortSorted(Flatten(Cursors(sub, side)), LevelOrder(side));
    FewerVenuesDominated(sub, full, side, n, LevelOrder(side));
  }

  /** Or, for prices, sorted by price only. */
  lemma FewerVenuesNoBetterPrice(sub: map<Venue, Book>, full: map<Venue, Book>, side: Side, n: nat)
    requires SubVenues(sub, full) && BooksPriceSorted(sub, side)
    ensures Dominates(MergeN(Cursors(full, side), side, n), MergeN(Cursors(sub, side), side, n), ByPrice(side))
  {
    OrdersCoarsen(side);
    SortedCursors(sub, side);
    MergeKeepsPriceOrder(Cursors(sub, side), side, n);
    PricesInOrder(MergeN(Cursors(sub, side), side, n), side);
    FewerVenuesDominated(sub, full, side, n, ByPrice(side));
  }

  /** One level at a price strictly better than `p`, on either side of the book. */
  function BookAhead(p: real, side: Side): (book: Book)
    ensures |side.Levels(book)| == 1 && !PriceOrder(side)(p, side.Levels(book)[0].price)
  {
    var q := Quote(if side.Ask? then p - 1.0 else p + 1.0, 1.0);
    Book([q], [q], 0, 0.0, 0.0)
  }

  /**
   Any survivors' rank can be pushed one back by a venue that then leaves. Where rank `k + 1` is the
   better of the two, that departure improves it: from `s[k]` to `s[k + 1]`.
   */
  lemma DepartureMayImprove(sub: map<Venue, Book>, v: Venue, side: Side, n: nat, k: nat) returns (full: map<Venue, Book>)
    requires v !in sub && k + 1 < |MergeN(Cursors(sub, side), side, n)|
    ensures SubVenues(sub, full) && full.Keys == sub.Keys + {v}
    ensures |MergeN(Cursors(full, side), side, n)| > k + 1
    ensures MergeN(Cursors(full, side), side, n)[k + 1] == MergeN(Cursors(sub, side), side, n)[k]
  {
    hide MergeN, Kept, Cursors;
    var s := MergeN(Cursors(sub, side), side, n);
    full := sub[v := BookAhead(s[k].price, side)];
    KeptCursors(sub, full, side, Without(v));
    MergePrefix(Cursors(sub, side), side, n);
    MergePrefix(Cursors(sub, side), side, n - 1);
    CursorsDistinct(full, side);
    CursorPlace(full, side, v);
    var j :| 0 <= j < |Cursors(full, side)| && Cursors(full, side)[j] == Cursor(v, side.Levels(full[v]));
    PushedBack(Cursors(full, side), side, n - 1, k, v, j);
  }

  /** A merge of survivors in order is dominated by every merge they came from; one out of order is not. */
  lemma NoDepartureImprovesIfInOrder(sub: map<Venue, Book>, v: Venue, side: Side, n: nat, le: (Level, Level) -> bool)
    requires v !in sub && Coarsens(le, side)
    ensures Sorted(MergeN(Cursors(sub, side), side, n), le) <==>
            forall full :: SubVenues(sub, full) && full.Keys <= sub.Keys + {v} ==>
              Dominates(MergeN(Cursors(full, side), side, n), MergeN(Cursors(sub, side), side, n), le)
  {
    var s := MergeN(Cursors(sub, side), side, n);
    if Sorted(s, le) {
      forall full | SubVenues(sub, full) ensures Dominates(MergeN(Cursors(full, side), side, n), s, le) {
        FewerVenuesDominated(sub, full, side, n, le);
      }
    } else {
      var i, j :| 0 <= i < j < |s| && !le(s[i], s[j]);
      var k := NeighboursOutOfOrder(s, le, i, j);
      var full := DepartureMayImprove(sub, v, side, n, k);
      assert !Dominates(MergeN(Cursors(full, side), side, n), s, le);
    }
  }

  /** No survivor is taken past the first descent of its list: a condition on the survivors' lists alone. */
  ghost predicate NoDescentTaken(venues: map<Venue, Book>, side: Side, n: nat, le: (Level, Level) -> bool) {
    forall w :: w in venues ==> Taken(Cursors(venues, side), side, n, w) <= Run(Cursor(w, side.Levels(venues[w])), le)
  }

  lemma BooksInOrderIff(venues: map<Venue, Book>, side: Side, n: nat, le: (Level, Level) -> bool)
    requires Coarsens(le, side)
    ensures Sorted(MergeN(Cursors(venues, side), side, n), le) <==> NoDescentTaken(venues, side, n, le)
  {
    hide MergeN, Cursors, Taken, Run;
    CursorsDistinct(venues, side);
    CursorsCover(venues, side);
    InOrderIff(Cursors(venues, side), side, n, le);
    forall w | w in venues
      ensures exists i :: 0 <= i < |Cursors(venues, side)| && Cursors(venues, side)[i] == Cursor(w, side.Levels(venues[w]))
    {
      CursorPlace(venues, side, w);
    }
  }

  /**
   Exactly when no departure improves a surviving rank, for any survivors with lists of any order: when
   the sort of their raised lists takes none of them past its first descent.
   */
  lemma NoDepartureImprovesIff(sub: map<Venue, Book>, v: Venue, side: Side, n: nat, le: (Level, Level) -> bool)
    requires v !in sub && Coarsens(le, side)
    ensures NoDescentTaken(sub, side, n, le) <==>
            forall full :: SubVenues(sub, full) && full.Keys <= sub.Keys + {v} ==>
              Dominates(MergeN(Cursors(full, side), side, n), MergeN(Cursors(sub, side), side, n), le)
  {
    BooksInOrderIff(sub, side, n, le);
    NoDepartureImprovesIfInOrder(sub, v, side, n, le);
  }

  /** A single survivor's merge is its own list, so then the condition is that its first `n` prices are in order. */
  lemma LoneSurvivorIff(w: Venue, book: Book, v: Venue, side: Side, n: nat)
    requires v != w
    ensures PriceSorted(Truncate(side.Levels(book), n), side) <==>
            forall full :: SubVenues(map[w := book], full) && full.Keys <= {w, v} ==>
              Dominates(MergeN(Cursors(full, side), side, n), TaggedAll(w, Truncate(side.Levels(book), n)), ByPrice(side))
  {
    var sub := map[w := book];
    OrdersCoarsen(side);
    LoneMerge(w, side.Levels(book), side, n);
    assert Cursors(sub, side) == [Cursor(w, side.Levels(book))];
    assert sub.Keys + {v} == {w, v};
    NoDepartureImprovesIfInOrder(sub, v, side, n, ByPrice(side));
    TaggedInOrder(w, Truncate(side.Levels(book), n), side);
  }

  lemma TaggedInOrder(w: Venue, qs: seq<Quote>, side: Side)
    ensures Sorted(TaggedAll(w, qs), ByPrice(side)) <==> PriceSorted(qs, side)
  {
    var ls := TaggedAll(w, qs);
    if PriceSorted(qs, side) {
      forall i, j | 0 <= i < j < |ls| ensures ByPrice(side)(ls[i], ls[j]) {
        assert PriceOrder(side)(qs[i].price, qs[j].price);
      }
    }
    if Sorted(ls, ByPrice(side)) {
      forall i, j | 0 <= i < j < |qs| ensures PriceOrder(side)(qs[i].price, qs[j].price) {
        assert ByPrice(side)(ls[i], ls[j]);
      }
    }
  }
}
