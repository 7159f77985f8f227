/** The k-way merge of every venue's book into one summary. */
module Merge {
  import opened Collections
  import opened Model

  const TOP_N: nat := 10

  datatype Ordering = Less | Equal | Greater {
    function Then(next: Ordering): Ordering {
      if Equal? then next else this
    }
  }

  function Compare(a: real, b: real): Ordering {
    if a < b then Less else if a == b then Equal else Greater
  }

  datatype Side = Bid | Ask {
    /** `Less` when `a` comes before `b`: price flips by side, the larger amount wins a tie. */
    function Better(a: Quote, b: Quote): Ordering {
      var byPrice := match this
        case Ask => Compare(a.price, b.price)
        case Bid => Compare(b.price, a.price);
      byPrice.Then(Compare(b.amount, a.amount))
    }

    function Levels(book: Book): seq<Quote> {
      match this
      case Bid => book.bids
      case Ask => book.asks
    }
  }

  /** A venue and the part of its list not yet taken. */
  datatype Cursor = Cursor(venue: Venue, rest: seq<Quote>)

  /** One cursor per venue present, in `Venue` order. */
  function Cursors(venues: map<Venue, Book>, side: Side): (cs: seq<Cursor>) {
    CursorFor(venues, Binance, side) + CursorFor(venues, Bitstamp, side) + CursorFor(venues, Kraken, side)
  }

  function CursorFor(venues: map<Venue, Book>, v: Venue, side: Side): seq<Cursor> {
    if v in venues then [Cursor(v, side.Levels(venues[v]))] else []
  }

  /**
   `cs[i]` has the best front level, and is the first cursor to: everything before it is strictly
   worse, everything after it is no better.
   */
  ghost predicate IsFirstBest(cs: seq<Cursor>, side: Side, i: nat) {
    && i < |cs| && cs[i].rest != []
    && (forall j :: 0 <= j < |cs| && cs[j].rest != [] ==> side.Better(cs[i].rest[0], cs[j].rest[0]) != Greater)
    && (forall j :: 0 <= j < i && cs[j].rest != [] ==> side.Better(cs[i].rest[0], cs[j].rest[0]) == Less)
  }

  /** `min_by` keeps the first minimum: a later front replaces the best so far only if that is `Greater`. */
  method FindBest(cs: seq<Cursor>, side: Side) returns (best: Option<nat>)
    ensures best.None? ==> forall j :: 0 <= j < |cs| ==> cs[j].rest == []
    ensures best.Some? ==> IsFirstBest(cs, side, best.value)
  {
    best := None;
    for i := 0 to |cs|
      invariant best.None? ==> forall j :: 0 <= j < i ==> cs[j].rest == []
      invariant best.Some? ==> best.value < i && IsFirstBest(cs[..i], side, best.value)
    {
      if cs[i].rest != [] {
        if best.None? || side.Better(cs[best.value].rest[0], cs[i].rest[0]) == Greater {
          best := Some(i);
        }
      }
    }
    assert cs[..|cs|] == cs;
  }

  /** What `min_by` finds among `cs[..k]`, as a function. */
  function BestAmong(cs: seq<Cursor>, side: Side, k: nat): (best: Option<nat>)
    requires k <= |cs|
    ensures best.Some? ==> best.value < k && cs[best.value].rest != []
  {
    if k == 0 then None
    else
      var before := BestAmong(cs, side, k - 1);
      if cs[k - 1].rest == [] then before
      else if before.None? || side.Better(cs[before.value].rest[0], cs[k - 1].rest[0]) == Greater then Some(k - 1)
      else before
  }

  function Best(cs: seq<Cursor>, side: Side): (best: Option<nat>)
    ensures best.Some? ==> best.value < |cs| && cs[best.value].rest != []
  {
    BestAmong(cs, side, |cs|)
  }

  lemma {:induction false} BestAmongIsFirst(cs: seq<Cursor>, side: Side, k: nat)
    requires k <= |cs|
    ensures BestAmong(cs, side, k).None? ==> forall j :: 0 <= j < k ==> cs[j].rest == []
    ensures BestAmong(cs, side, k).Some? ==> IsFirstBest(cs[..k], side, BestAmong(cs, side, k).value)
  {
    if k > 0 {
      BestAmongIsFirst(cs, side, k - 1);
    }
  }

  lemma BestIsFirst(cs: seq<Cursor>, side: Side)
    ensures Best(cs, side).None? ==> forall j :: 0 <= j < |cs| ==> cs[j].rest == []
    ensures Best(cs, side).Some? ==> IsFirstBest(cs, side, Best(cs, side).value)
  {
    BestAmongIsFirst(cs, side, |cs|);
    assert cs[..|cs|] == cs;
  }

  lemma FirstBestUnique(cs: seq<Cursor>, side: Side, i: nat, j: nat)
    requires IsFirstBest(cs, side, i) && IsFirstBest(cs, side, j)
    ensures i == j
  {
  }

  /** `Iterator::next` on one cursor. */
  function Advance(cs: seq<Cursor>, i: nat): seq<Cursor>
    requires i < |cs| && cs[i].rest != []
  {
    cs[i := cs[i].(rest := cs[i].rest[1..])]
  }

  function Tagged(v: Venue, q: Quote): Level {
    Level(v.Name(), q.price, q.amount)
  }

  /** Taking the first best front `n` times. */
  function MergeN(cs: seq<Cursor>, side: Side, n: nat): seq<Level>
    decreases n, cs
  {
    if n == 0 || Best(cs, side).None? then []
    else
      var i := Best(cs, side).value;
      [Tagged(cs[i].venue, cs[i].rest[0])] + MergeN(Advance(cs, i), side, n - 1)
  }

  lemma MergeUnfold(cs: seq<Cursor>, side: Side, n: nat)
    requires n > 0
    ensures MergeN(cs, side, n)
         == if Best(cs, side).None? then []
            else
              var i := Best(cs, side).value;
              [Tagged(cs[i].venue, cs[i].rest[0])] + MergeN(Advance(cs, i), side, n - 1)
  {
  }

  /** Whoever finds a first best front, the merge goes on from there. */
  lemma MergeStep(cs: seq<Cursor>, side: Side, n: nat, i: nat)
    requires IsFirstBest(cs, side, i)
    ensures MergeN(cs, side, n + 1) == [Tagged(cs[i].venue, cs[i].rest[0])] + MergeN(Advance(cs, i), side, n)
  {
    BestIsFirst(cs, side);
    FirstBestUnique(cs, side, i, Best(cs, side).value);
  }

  /** The same, after `out` has been taken already. */
  lemma MergeStepAfter(out: seq<Level>, cs: seq<Cursor>, side: Side, n: nat, i: nat)
    requires IsFirstBest(cs, side, i)
    ensures out + MergeN(cs, side, n + 1)
         == out + [Tagged(cs[i].venue, cs[i].rest[0])] + MergeN(Advance(cs, i), side, n)
  {
    var later := MergeN(Advance(cs, i), side, n);
    assert MergeN(cs, side, n + 1) == [Tagged(cs[i].venue, cs[i].rest[0])] + later by {
      MergeStep(cs, side, n, i);
    }
    assert out + ([Tagged(cs[i].venue, cs[i].rest[0])] + later) == out + [Tagged(cs[i].venue, cs[i].rest[0])] + later;
  }

  /** The cursor loop, for any bound. */
  method TakeBest(start: seq<Cursor>, side: Side, bound: nat) returns (out: seq<Level>)
    ensures out == MergeN(start, side, bound)
  {
    var cursors := start;
    out := [];
    while |out| < bound
      invariant |out| <= bound
      invariant MergeN(start, side, bound) == out + MergeN(cursors, side, bound - |out|)
    {
      var best := FindBest(cursors, side);
      if best.None? {
        BestIsFirst(cursors, side);
        break;
      }
      var i := best.value;
      MergeStepAfter(out, cursors, side, bound - |out| - 1, i);
      out := out + [Tagged(cursors[i].venue, cursors[i].rest[0])];
      cursors := Advance(cursors, i);
    }
  }

  method MergeSide(venues: map<Venue, Book>, side: Side) returns (out: seq<Level>)
    ensures out == MergeN(Cursors(venues, side), side, TOP_N)
  {
    out := TakeBest(Cursors(venues, side), side, TOP_N);
  }

  /** `f64::round`: to the nearest integer, halves away from zero. */
  function Round(x: real): int {
    if x >= 0.0 then (x + 0.5).Floor else -((0.5 - x).Floor)
  }

  /** Best ask minus best bid, rounded to the 8-decimal tick. */
  function Spread(bestBid: real, bestAsk: real): real {
    Round((bestAsk - bestBid) * 100000000.0) as real / 100000000.0
  }

  function MergeResult(venues: map<Venue, Book>): Option<Summary> {
    var bids := MergeN(Cursors(venues, Bid), Bid, TOP_N);
    var asks := MergeN(Cursors(venues, Ask), Ask, TOP_N);
    if bids == [] || asks == [] then None
    else Some(Summary(Spread(bids[0].price, asks[0].price), bids, asks))
  }

  method MergeBooks(venues: map<Venue, Book>) returns (summary: Option<Summary>)
    ensures summary == MergeResult(venues)
  {
    var bids := MergeSide(venues, Bid);
    var asks := MergeSide(venues, Ask);
    if bids == [] || asks == [] {
      return None;
    }
    summary := Some(Summary(Spread(bids[0].price, asks[0].price), bids, asks));
  }
}
