/** What the cursor merge means: conservation, refinement of a stable sort, depth, monotonicity. */
module MergeTheorems {
  import opened Collections
  import opened Model
  import opened Merge
  import opened Sorting

  function TaggedAll(v: Venue, qs: seq<Quote>): (r: seq<Level>)
    ensures |r| == |qs|
    ensures forall i :: 0 <= i < |qs| ==> r[i] == Tagged(v, qs[i])
  {
    if qs == [] then [] else [Tagged(v, qs[0])] + TaggedAll(v, qs[1..])
  }

  function FromVenue(v: Venue): Level -> bool {
    (l: Level) => l.exchange == v.Name()
  }

  ghost predicate DistinctVenues(cs: seq<Cursor>) {
    forall i, j :: 0 <= i < j < |cs| ==> cs[i].venue != cs[j].venue
  }

  // ---------------------------------------------------------------- conservation

  function Total(cs: seq<Cursor>): nat {
    if cs == [] then 0 else |cs[0].rest| + Total(cs[1..])
  }

  lemma {:induction false} TotalAdvance(cs: seq<Cursor>, i: nat)
    requires i < |cs| && cs[i].rest != []
    ensures Total(Advance(cs, i)) == Total(cs) - 1
  {
    if i > 0 {
      assert Advance(cs, i)[1..] == Advance(cs[1..], i - 1);
      TotalAdvance(cs[1..], i - 1);
    } else {
      assert Advance(cs, i)[1..] == cs[1..];
    }
  }

  lemma {:induction false} TotalZero(cs: seq<Cursor>)
    ensures Total(cs) == 0 <==> forall j :: 0 <= j < |cs| ==> cs[j].rest == []
  {
    if cs != [] {
      TotalZero(cs[1..]);
      assert forall j :: 0 <= j < |cs[1..]| ==> cs[1..][j] == cs[j + 1];
      assert (forall j :: 0 <= j < |cs| ==> cs[j].rest == []) <==>
          cs[0].rest == [] && forall j :: 0 <= j < |cs[1..]| ==> cs[1..][j].rest == [];
    }
  }

  /** The output has as many levels as it can, whatever the order of the lists. */
  lemma {:induction false} MergeLength(cs: seq<Cursor>, side: Side, n: nat)
    ensures |MergeN(cs, side, n)| == if n <= Total(cs) then n else Total(cs)
    decreases n
  {
    TotalZero(cs);
    BestIsFirst(cs, side);
    if n > 0 && Best(cs, side).Some? {
      var b := Best(cs, side).value;
      TotalAdvance(cs, b);
      MergeLength(Advance(cs, b), side, n - 1);
    }
  }

  /** Every level in the output is a level of one of the lists, under that list's label. */
  lemma {:induction false} MergeInvents(cs: seq<Cursor>, side: Side, n: nat, l: Level)
    requires l in MergeN(cs, side, n)
    ensures exists i, k :: 0 <= i < |cs| && 0 <= k < |cs[i].rest| && l == Tagged(cs[i].venue, cs[i].rest[k])
    decreases n
  {
    var b := Best(cs, side).value;
    var after := Advance(cs, b);
    if l in MergeN(after, side, n - 1) {
      MergeInvents(after, side, n - 1, l);
      var i, k :| 0 <= i < |after| && 0 <= k < |after[i].rest| && l == Tagged(after[i].venue, after[i].rest[k]);
      if i == b {
        assert l == Tagged(cs[i].venue, cs[i].rest[k + 1]);
      }
    }
  }

  lemma TaggedAllCons(v: Venue, qs: seq<Quote>)
    requires qs != []
    ensures TaggedAll(v, qs) == [Tagged(v, qs[0])] + TaggedAll(v, qs[1..])
  {
  }

  /**
   Conservation, with no sortedness at all: each venue's levels in the output are a prefix of that
   venue's list, so nothing is lost from the middle, repeated or reordered.
   */
  lemma {:induction false} MergeTakesPrefixes(cs: seq<Cursor>, side: Side, n: nat, i: nat)
    requires DistinctVenues(cs) && i < |cs|
    ensures Filter(MergeN(cs, side, n), FromVenue(cs[i].venue)) <= TaggedAll(cs[i].venue, cs[i].rest)
    decreases n
  {
    if n > 0 && Best(cs, side).Some? {
      var b := Best(cs, side).value;
      var x, later := Tagged(cs[b].venue, cs[b].rest[0]), MergeN(Advance(cs, b), side, n - 1);
      MergeTakesPrefixes(Advance(cs, b), side, n - 1, i);
      PrefixStep(cs, b, i, later);
      assert MergeN(cs, side, n) == [x] + later;
    }
  }

  lemma PrefixStep(cs: seq<Cursor>, b: nat, i: nat, later: seq<Level>)
    requires DistinctVenues(cs) && i < |cs| && b < |cs| && cs[b].rest != []
    requires Filter(later, FromVenue(cs[i].venue)) <= TaggedAll(cs[i].venue, Advance(cs, b)[i].rest)
    ensures Filter([Tagged(cs[b].venue, cs[b].rest[0])] + later, FromVenue(cs[i].venue)) <= TaggedAll(cs[i].venue, cs[i].rest)
  {
    NameInjective(cs[i].venue, cs[b].venue);
    if i == b {
      TaggedAllCons(cs[i].venue, cs[i].rest);
    }
    FilterConsPrefix(Tagged(cs[b].venue, cs[b].rest[0]), later, FromVenue(cs[i].venue), TaggedAll(cs[i].venue, cs[i].rest),
      TaggedAll(cs[i].venue, Advance(cs, b)[i].rest));
  }

  lemma FilterConsPrefix<T(!new)>(x: T, s: seq<T>, p: T -> bool, all: seq<T>, rest: seq<T>)
    requires Filter(s, p) <= rest && all == (if p(x) then [x] else []) + rest
    ensures Filter([x] + s, p) <= all
  {
    assert ([x] + s)[1..] == s;
  }

  // ---------------------------------------------------------------- refinement of a stable sort

  /** Every remaining level, venue after venue. */
  function Flatten(cs: seq<Cursor>): seq<Level> {
    if cs == [] then [] else TaggedAll(cs[0].venue, cs[0].rest) + Flatten(cs[1..])
  }

  lemma {:induction false} FlattenConcat(a: seq<Cursor>, b: seq<Cursor>)
    ensures Flatten(a + b) == Flatten(a) + Flatten(b)
  {
    if a == [] {
      assert a + b == b;
    } else {
      assert (a + b)[1..] == a[1..] + b;
      FlattenConcat(a[1..], b);
    }
  }

  lemma {:induction false} FlattenMember(cs: seq<Cursor>, l: Level)
    requires l in Flatten(cs)
    ensures exists j, k :: 0 <= j < |cs| && 0 <= k < |cs[j].rest| && l == Tagged(cs[j].venue, cs[j].rest[k])
  {
    if l in TaggedAll(cs[0].venue, cs[0].rest) {
      var k :| 0 <= k < |cs[0].rest| && l == TaggedAll(cs[0].venue, cs[0].rest)[k];
      assert l == Tagged(cs[0].venue, cs[0].rest[k]);
    } else {
      FlattenMember(cs[1..], l);
      var j, k :| 0 <= j < |cs[1..]| && 0 <= k < |cs[1..][j].rest| && l == Tagged(cs[1..][j].venue, cs[1..][j].rest[k]);
      assert l == Tagged(cs[j + 1].venue, cs[j + 1].rest[k]);
    }
  }

  lemma FlattenAt(cs: seq<Cursor>, i: nat)
    requires i < |cs|
    ensures Flatten(cs) == Flatten(cs[..i]) + (TaggedAll(cs[i].venue, cs[i].rest) + Flatten(cs[i + 1..]))
  {
    assert cs == cs[..i] + cs[i..];
    FlattenConcat(cs[..i], cs[i..]);
    assert cs[i..][1..] == cs[i + 1..];
  }

  /** Splitting off the front of cursor `i`. */
  lemma FlattenFront(cs: seq<Cursor>, i: nat)
    requires i < |cs| && cs[i].rest != []
    ensures Flatten(cs) == Flatten(cs[..i]) + [Tagged(cs[i].venue, cs[i].rest[0])] + After(cs, i)
    ensures Flatten(Advance(cs, i)) == Flatten(cs[..i]) + After(cs, i)
  {
    var ds := Advance(cs, i);
    FlattenAt(cs, i);
    FlattenAt(ds, i);
    assert ds[..i] == cs[..i] && ds[i + 1..] == cs[i + 1..];
    Associative([Tagged(cs[i].venue, cs[i].rest[0])], TaggedAll(cs[i].venue, cs[i].rest[1..]), Flatten(cs[i + 1..]));
    Associative(Flatten(cs[..i]), [Tagged(cs[i].venue, cs[i].rest[0])], After(cs, i));
  }

  /** Everything behind the front level of cursor `i`. */
  function After(cs: seq<Cursor>, i: nat): seq<Level>
    requires i < |cs| && cs[i].rest != []
  {
    TaggedAll(cs[i].venue, cs[i].rest[1..]) + Flatten(cs[i + 1..])
  }

  lemma TruncateCons<T>(x: T, s: seq<T>, n: nat)
    ensures Truncate([x] + s, n + 1) == [x] + Truncate(s, n)
  {
  }

  function QuoteOf(l: Level): Quote {
    Quote(l.price, l.amount)
  }

  /** The two-key order of `Side::better` on published levels. */
  function LevelOrder(side: Side): (Level, Level) -> bool {
    (a: Level, b: Level) => side.Better(QuoteOf(a), QuoteOf(b)) != Greater
  }

  /** The price order of a side alone. */
  function PriceOrder(side: Side): (real, real) -> bool {
    (p: real, q: real) => match side case Ask => p <= q case Bid => q <= p
  }

  ghost predicate BetterSorted(qs: seq<Quote>, side: Side) {
    forall i, j {:trigger side.Better(qs[i], qs[j])} :: 0 <= i < j < |qs| ==> side.Better(qs[i], qs[j]) != Greater
  }

  ghost predicate PriceSorted(qs: seq<Quote>, side: Side) {
    forall i, j :: 0 <= i < j < |qs| ==> PriceOrder(side)(qs[i].price, qs[j].price)
  }

  ghost predicate AllBetterSorted(cs: seq<Cursor>, side: Side) {
    forall i :: 0 <= i < |cs| ==> BetterSorted(cs[i].rest, side)
  }

  ghost predicate AllPriceSorted(cs: seq<Cursor>, side: Side) {
    forall i :: 0 <= i < |cs| ==> PriceSorted(cs[i].rest, side)
  }

  /** Distinct prices in order leave no tie for the amount to break. */
  lemma StrictlyPricedIsBetterSorted(qs: seq<Quote>, side: Side)
    requires forall i, j :: 0 <= i < j < |qs| ==> PriceOrder(side)(qs[i].price, qs[j].price) && qs[i].price != qs[j].price
    ensures BetterSorted(qs, side)
  {
    forall i, j | 0 <= i < j < |qs| ensures side.Better(qs[i], qs[j]) != Greater {
      assert PriceOrder(side)(qs[i].price, qs[j].price);
    }
  }

  /** The front of the first best cursor beats every level of the cursors before it. */
  lemma FrontBeatsEarlier(cs: seq<Cursor>, side: Side, i: nat, y: Level)
    requires AllBetterSorted(cs, side) && IsFirstBest(cs, side, i) && y in Flatten(cs[..i])
    ensures var x := Tagged(cs[i].venue, cs[i].rest[0]); LevelOrder(side)(x, y) && !LevelOrder(side)(y, x)
  {
    hide Flatten;
    FlattenMember(cs[..i], y);
    var j, k :| 0 <= j < |cs[..i]| && 0 <= k < |cs[..i][j].rest| && y == Tagged(cs[..i][j].venue, cs[..i][j].rest[k]);
    assert BetterSorted(cs[j].rest, side);
    assert side.Better(cs[i].rest[0], cs[j].rest[0]) == Less;
    assert k > 0 ==> side.Better(cs[j].rest[0], cs[j].rest[k]) != Greater;
  }

  /** And no level behind it is better. */
  lemma FrontNoWorseThanLater(cs: seq<Cursor>, side: Side, i: nat, y: Level)
    requires AllBetterSorted(cs, side) && IsFirstBest(cs, side, i) && y in After(cs, i)
    ensures LevelOrder(side)(Tagged(cs[i].venue, cs[i].rest[0]), y)
  {
    hide Flatten;
    if y in Flatten(cs[i + 1..]) {
      FlattenMember(cs[i + 1..], y);
      var j, k :| 0 <= j < |cs[i + 1..]| && 0 <= k < |cs[i + 1..][j].rest| && y == Tagged(cs[i + 1..][j].venue, cs[i + 1..][j].rest[k]);
      var c := cs[i + 1 + j];
      assert BetterSorted(c.rest, side);
      assert side.Better(cs[i].rest[0], c.rest[0]) != Greater;
      assert k > 0 ==> side.Better(c.rest[0], c.rest[k]) != Greater;
    } else {
      var k :| 0 <= k < |cs[i].rest[1..]| && y == TaggedAll(cs[i].venue, cs[i].rest[1..])[k];
      assert BetterSorted(cs[i].rest, side);
      assert side.Better(cs[i].rest[0], cs[i].rest[k + 1]) != Greater;
    }
  }

  lemma AdvanceKeepsBetterSorted(cs: seq<Cursor>, side: Side, i: nat)
    requires AllBetterSorted(cs, side) && i < |cs| && cs[i].rest != []
    ensures AllBetterSorted(Advance(cs, i), side)
  {
    forall j | 0 <= j < |cs| ensures BetterSorted(Advance(cs, i)[j].rest, side) {
      assert BetterSorted(cs[j].rest, side);
    }
  }

  /** Sorting what is left also begins with the first best front. */
  lemma SortStep(cs: seq<Cursor>, side: Side, i: nat)
    requires AllBetterSorted(cs, side) && IsFirstBest(cs, side, i)
    ensures SortBy(Flatten(cs), LevelOrder(side))
         == [Tagged(cs[i].venue, cs[i].rest[0])] + SortBy(Flatten(Advance(cs, i)), LevelOrder(side))
  {
    hide SortBy, Flatten, AllBetterSorted;
    var x := Tagged(cs[i].venue, cs[i].rest[0]);
    FlattenFront(cs, i);
    forall y | y in Flatten(cs[..i]) ensures LevelOrder(side)(x, y) && !LevelOrder(side)(y, x) {
      FrontBeatsEarlier(cs, side, i, y);
    }
    forall y | y in After(cs, i) ensures LevelOrder(side)(x, y) {
      FrontNoWorseThanLater(cs, side, i, y);
    }
    PullMinimum(Flatten(cs[..i]), Tagged(cs[i].venue, cs[i].rest[0]), After(cs, i), LevelOrder(side));
  }

  lemma {:induction false} FlattenEmpty(cs: seq<Cursor>)
    requires forall j :: 0 <= j < |cs| ==> cs[j].rest == []
    ensures Flatten(cs) == []
  {
    if cs != [] {
      FlattenEmpty(cs[1..]);
    }
  }

  /**
   The merge refines its simple form: when every list is sorted under `Side::better`, it returns
   exactly the first `n` of the stable sort of the lists concatenated in `Venue` order.
   */
  lemma {:induction false} MergeRefinesStableSort(cs: seq<Cursor>, side: Side, n: nat)
    requires AllBetterSorted(cs, side)
    ensures MergeN(cs, side, n) == Truncate(SortBy(Flatten(cs), LevelOrder(side)), n)
    decreases n
  {
    if n > 0 && Best(cs, side).Some? {
      MergeRefinesStep(cs, side, n, Best(cs, side).value);
    } else {
      BestIsFirst(cs, side);
      if n > 0 {
        FlattenEmpty(cs);
      }
    }
  }

  lemma MergeRefinesStep(cs: seq<Cursor>, side: Side, n: nat, i: nat)
    requires AllBetterSorted(cs, side) && n > 0 && Best(cs, side) == Some(i)
    ensures MergeN(cs, side, n) == Truncate(SortBy(Flatten(cs), LevelOrder(side)), n)
    decreases n, 0
  {
    hide *;
    BestIsFirst(cs, side);
    var x, later := Tagged(cs[i].venue, cs[i].rest[0]), MergeN(Advance(cs, i), side, n - 1);
    var sorted := SortBy(Flatten(Advance(cs, i)), LevelOrder(side));
    assert later == Truncate(sorted, n - 1) by {
      AdvanceKeepsBetterSorted(cs, side, i);
      MergeRefinesStableSort(Advance(cs, i), side, n - 1);
    }
    SortStep(cs, side, i);
    MergeStep(cs, side, n - 1, i);
    TruncateCons(x, sorted, n - 1);
  }
}
