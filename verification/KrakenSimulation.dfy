/**
 The held side as a cache of the venue's full side: updating refines a price map, and as long as
 each update names what its top ten gained, the held ten levels are the venue's top ten forever.
 */
module KrakenSimulation {
  import opened Collections
  import opened Sorting
  import opened KrakenSide

  /** A full side: the level resting at each price. */
  type PriceMap = map<real, KrakenLevel>

  ghost predicate Coherent(m: PriceMap) {
    forall p :: p in m ==> m[p].price == p
  }

  function MapAt(m: PriceMap, p: real): seq<KrakenLevel> {
    if p in m then [m[p]] else []
  }

  /** `s` lists `m`: sorted, and holding at each price what `m` holds there. */
  ghost predicate Lists(s: seq<KrakenLevel>, m: PriceMap, ascending: bool) {
    SideSorted(s, ascending) && forall p :: At(s, p) == MapAt(m, p)
  }

  /** The levels of a map, best first. */
  ghost function Listing(m: PriceMap, ascending: bool): seq<KrakenLevel> {
    if exists p :: p in m then
      var p :| p in m;
      SortBy([m[p]] + Listing(m - {p}, ascending), SideOrder(ascending))
    else []
  }

  lemma {:induction false} ListingLists(m: PriceMap, ascending: bool)
    requires Coherent(m)
    ensures Lists(Listing(m, ascending), m, ascending)
  {
    if exists p :: p in m {
      var s := Listing(m, ascending);
      var p :| p in m && s == SortBy([m[p]] + Listing(m - {p}, ascending), SideOrder(ascending));
      var rest := Listing(m - {p}, ascending);
      ListingLists(m - {p}, ascending);
      OrderIsTotal(ascending);
      SortSorted([m[p]] + rest, SideOrder(ascending));
      forall q ensures At(s, q) == MapAt(m, q) {
        SortStable([m[p]] + rest, SideOrder(ascending), AtPrice(q));
        AtFirst([m[p]] + rest, q);
        assert ([m[p]] + rest)[1..] == rest;
        assert At(rest, q) == MapAt(m - {p}, q);
      }
    }
  }

  lemma ListingUnique(s: seq<KrakenLevel>, m: PriceMap, ascending: bool)
    requires Coherent(m) && Lists(s, m, ascending)
    ensures s == Listing(m, ascending)
  {
    ListingLists(m, ascending);
    SameAtSameSide(s, Listing(m, ascending), ascending);
  }

  /** The map of a side's own levels, the first at a price winning. */
  function SideMap(s: seq<KrakenLevel>): PriceMap {
    if s == [] then map[] else SideMap(s[1..])[s[0].price := s[0]]
  }

  lemma {:induction false} SideMapAt(s: seq<KrakenLevel>, p: real)
    ensures MapAt(SideMap(s), p) == Truncate(At(s, p), 1)
  {
    if s != [] {
      AtFirst(s, p);
      SideMapAt(s[1..], p);
    }
  }

  lemma {:induction false} SideMapCoherent(s: seq<KrakenLevel>)
    ensures Coherent(SideMap(s))
  {
    if s != [] {
      SideMapCoherent(s[1..]);
    }
  }

  /** Exactly the strictly sorted sides list the map of their own levels. */
  lemma StrictSidesAreListings(s: seq<KrakenLevel>, ascending: bool)
    ensures StrictlySorted(s, ascending) <==> Lists(s, SideMap(s), ascending)
  {
    if StrictlySorted(s, ascending) {
      forall p ensures At(s, p) == MapAt(SideMap(s), p) {
        StrictAt(s, ascending, p);
        SideMapAt(s, p);
      }
    }
    if Lists(s, SideMap(s), ascending) {
      forall i, j | 0 <= i < j < |s| ensures !SideOrder(ascending)(s[j], s[i]) {
        assert At(s, s[i].price) == MapAt(SideMap(s), s[i].price);
        if s[i].price == s[j].price {
          AtTwice(s, i, j);
        }
        assert SideOrder(ascending)(s[i], s[j]);
      }
    }
  }

  lemma {:induction false} StrictAt(s: seq<KrakenLevel>, ascending: bool, p: real)
    requires StrictlySorted(s, ascending)
    ensures |At(s, p)| <= 1
  {
    if s != [] {
      AtFirst(s, p);
      StrictAt(s[1..], ascending, p);
      AtMember(s[1..], p);
      forall l | l in s[1..] ensures l.price != s[0].price {
        var j :| 0 <= j < |s[1..]| && s[1..][j] == l;
        assert !SideOrder(ascending)(s[j + 1], s[0]);
      }
    }
  }

  lemma AtTwice(s: seq<KrakenLevel>, i: nat, j: nat)
    requires i < j < |s| && s[i].price == s[j].price
    ensures |At(s, s[i].price)| >= 2
  {
    var p := s[i].price;
    assert s == s[..i + 1] + s[i + 1..];
    FilterConcat(s[..i + 1], s[i + 1..], AtPrice(p));
    assert s[i] in s[..i + 1];
    assert s[i + 1..][j - i - 1] in s[i + 1..];
    AtMember(s[..i + 1], p);
    AtMember(s[i + 1..], p);
  }

  // ---------------------------------------------------------------- updates on maps

  /** A zero quantity removes the price; anything else sets it. */
  function Changed(m: PriceMap, change: KrakenLevel): PriceMap {
    if change.qty == 0.0 then m - {change.price} else m[change.price := change]
  }

  function ChangedAll(m: PriceMap, changes: seq<KrakenLevel>): PriceMap
    decreases changes
  {
    if changes == [] then m else ChangedAll(Changed(m, changes[0]), changes[1..])
  }

  lemma {:induction false} ChangedAllAt(m: PriceMap, changes: seq<KrakenLevel>, p: real)
    ensures MapAt(ChangedAll(m, changes), p)
         == if LastChange(changes, p).Some? then Meaning(LastChange(changes, p).value) else MapAt(m, p)
    decreases changes
  {
    if changes != [] {
      ChangedAllAt(Changed(m, changes[0]), changes[1..], p);
    }
  }

  lemma {:induction false} ChangedAllCoherent(m: PriceMap, changes: seq<KrakenLevel>)
    requires Coherent(m)
    ensures Coherent(ChangedAll(m, changes))
    decreases changes
  {
    if changes != [] {
      ChangedAllCoherent(Changed(m, changes[0]), changes[1..]);
    }
  }

  /** The retain, push and re-sort steps on a listing list the changed map. */
  lemma UpsertAllRefinesMap(s: seq<KrakenLevel>, m: PriceMap, changes: seq<KrakenLevel>, ascending: bool)
    requires Lists(s, m, ascending)
    ensures Lists(UpsertAll(s, changes, ascending), ChangedAll(m, changes), ascending)
  {
    UpsertAllSorted(s, changes, ascending);
    forall p ensures At(UpsertAll(s, changes, ascending), p) == MapAt(ChangedAll(m, changes), p) {
      UpsertAllAt(s, changes, ascending, p);
      ChangedAllAt(m, changes, p);
    }
  }

  /** From a strictly sorted side an update leaves the best ten of the changed price map. */
  lemma UpdateRefinesMap(s: seq<KrakenLevel>, changes: seq<KrakenLevel>, ascending: bool)
    requires StrictlySorted(s, ascending)
    ensures UpdatedSide(s, changes, ascending) == Cut(Listing(ChangedAll(SideMap(s), changes), ascending))
  {
    var m := SideMap(s);
    SideMapCoherent(s);
    StrictSidesAreListings(s, ascending);
    UpsertAllRefinesMap(s, m, changes, ascending);
    ChangedAllCoherent(m, changes);
    ListingUnique(UpsertAll(s, changes, ascending), ChangedAll(m, changes), ascending);
  }

  // ---------------------------------------------------------------- the cache simulates the venue

  /** The venue's true top ten. */
  ghost function Top(m: PriceMap, ascending: bool): seq<KrakenLevel> {
    Cut(Listing(m, ascending))
  }

  /** `p` is a price of the true top ten. */
  ghost predicate InTop(m: PriceMap, p: real, ascending: bool) {
    At(Top(m, ascending), p) != []
  }

  /** What the held side has at `p` once the changes are made: the last word on it, or what was there. */
  function AfterChanges(held: seq<KrakenLevel>, changes: seq<KrakenLevel>, p: real): seq<KrakenLevel> {
    if LastChange(changes, p).Some? then Meaning(LastChange(changes, p).value) else At(held, p)
  }

  /** No room for `p`: ten levels, none of them worse. */
  ghost predicate Beneath(top: seq<KrakenLevel>, p: real, ascending: bool) {
    |top| == DEPTH && forall l :: l in top ==> if ascending then l.price <= p else p <= l.price
  }

  /**
   What an update has to say to a side holding the top ten of `m`, price by price, when the venue has
   moved to `m'`: at a price of the new top ten, what rests there; at any other, at least nothing that
   would reach into the new top ten.
   */
  ghost predicate Announces(m: PriceMap, m': PriceMap, changes: seq<KrakenLevel>, ascending: bool) {
    forall p :: AnnouncesAt(m, m', changes, ascending, p)
  }

  ghost predicate AnnouncesAt(m: PriceMap, m': PriceMap, changes: seq<KrakenLevel>, ascending: bool, p: real) {
    var after := AfterChanges(Top(m, ascending), changes, p);
    if InTop(m', p, ascending) then after == MapAt(m', p)
    else after != [] ==> Beneath(Top(m', ascending), p, ascending)
  }

  lemma TopAt(m: PriceMap, p: real, ascending: bool)
    requires Coherent(m)
    ensures InTop(m, p, ascending) ==> At(Top(m, ascending), p) == MapAt(m, p) && At(Dropped(Listing(m, ascending)), p) == []
    ensures MapAt(m, p) == At(Top(m, ascending), p) + At(Dropped(Listing(m, ascending)), p)
  {
    ListingLists(m, ascending);
    CutAt(Listing(m, ascending), p);
    assert At(Listing(m, ascending), p) == MapAt(m, p);
  }

  /** What a sorted side drops lies beneath what it keeps. */
  lemma DroppedBeneath(whole: seq<KrakenLevel>, p: real, ascending: bool)
    requires SideSorted(whole, ascending) && At(Dropped(whole), p) != []
    ensures Beneath(Cut(whole), p, ascending)
  {
    AtMember(Dropped(whole), p);
    var l :| l in Dropped(whole) && l.price == p;
    var k :| 0 <= k < |Dropped(whole)| && Dropped(whole)[k] == l;
    assert whole[|Cut(whole)| + k] == l;
    forall c | c in Cut(whole) ensures SideOrder(ascending)(c, l) {
      var i :| 0 <= i < |Cut(whole)| && Cut(whole)[i] == c;
      assert whole[i] == c;
    }
  }

  /** A sorted side is cut to `top` if it holds at its prices what `top` does, and elsewhere only levels beneath it. */
  lemma CutIsTop(part: seq<KrakenLevel>, top: seq<KrakenLevel>, ascending: bool)
    requires SideSorted(part, ascending) && SideSorted(top, ascending) && |top| <= DEPTH
    requires forall p :: At(top, p) != [] ==> At(part, p) == At(top, p)
    requires forall p :: At(top, p) == [] && At(part, p) != [] ==> Beneath(top, p, ascending)
    ensures Cut(part) == top
  {
    var beyond := (p: real) => At(top, p) == [];
    var rest := Filter(part, KeptPrice(beyond));
    assert SideSorted(top + rest, ascending) by {
      FilterSorted(part, KeptPrice(beyond), SideOrder(ascending));
      forall l | l in rest ensures Beneath(top, l.price, ascending) {
        FilterElements(part, KeptPrice(beyond));
        AtMember(part, l.price);
      }
      forall i, j | 0 <= i < |top| <= j < |top + rest| ensures SideOrder(ascending)((top + rest)[i], (top + rest)[j]) {
        assert (top + rest)[j] in rest && top[i] in top;
      }
    }
    forall p ensures At(part, p) == At(top + rest, p) {
      FilterConcat(top, rest, AtPrice(p));
      AtOfFilter(part, beyond, p);
    }
    SameAtSameSide(part, top + rest, ascending);
    if rest != [] {
      FilterElements(part, KeptPrice(beyond));
      AtMember(part, rest[0].price);
      assert rest[0] in rest;
      assert Beneath(top, rest[0].price, ascending);
    }
  }

  lemma TopSorted(m: PriceMap, ascending: bool)
    requires Coherent(m)
    ensures SideSorted(Top(m, ascending), ascending) && |Top(m, ascending)| <= DEPTH
  {
    ListingLists(m, ascending);
  }

  /**
   Exactly when the held ten stay the venue's true ten: an update to a side holding the true top ten
   leaves the new true top ten if and only if it announces the move, whatever the two books are.
   */
  lemma SimulatesIffAnnounced(m: PriceMap, m': PriceMap, changes: seq<KrakenLevel>, ascending: bool)
    requires Coherent(m) && Coherent(m')
    ensures UpdatedSide(Top(m, ascending), changes, ascending) == Top(m', ascending) <==> Announces(m, m', changes, ascending)
  {
    hide UpsertAll, Listing, Filter, LastChange, Sorted;
    var part := UpsertAll(Top(m, ascending), changes, ascending);
    TopSorted(m, ascending);
    TopSorted(m', ascending);
    UpsertAllSorted(Top(m, ascending), changes, ascending);
    forall p ensures At(part, p) == AfterChanges(Top(m, ascending), changes, p) && |At(part, p)| <= 1 {
      UpsertAllAt(Top(m, ascending), changes, ascending, p);
      TopAt(m, p, ascending);
    }
    if Announces(m, m', changes, ascending) {
      forall p
        ensures At(Top(m', ascending), p) != [] ==> At(part, p) == At(Top(m', ascending), p)
        ensures At(Top(m', ascending), p) == [] && At(part, p) != [] ==> Beneath(Top(m', ascending), p, ascending)
      {
        assert AnnouncesAt(m, m', changes, ascending, p);
        TopAt(m', p, ascending);
      }
      CutIsTop(part, Top(m', ascending), ascending);
    }
    if Cut(part) == Top(m', ascending) {
      forall p ensures AnnouncesAt(m, m', changes, ascending, p) {
        CutAt(part, p);
        TopAt(m', p, ascending);
        if At(Dropped(part), p) != [] {
          DroppedBeneath(part, p, ascending);
        }
      }
    }
  }

  /** A venue's history: the map and the update that announced it. */
  datatype Move = Move(changes: seq<KrakenLevel>, truth: PriceMap)

  function HeldAfter(held: seq<KrakenLevel>, moves: seq<Move>, ascending: bool): seq<KrakenLevel>
    decreases moves
  {
    if moves == [] then held else HeldAfter(UpdatedSide(held, moves[0].changes, ascending), moves[1..], ascending)
  }

  ghost predicate AnnouncedRun(m: PriceMap, moves: seq<Move>, ascending: bool)
    decreases moves
  {
    moves != [] ==>
      && Coherent(moves[0].truth)
      && Announces(m, moves[0].truth, moves[0].changes, ascending)
      && AnnouncedRun(moves[0].truth, moves[1..], ascending)
  }

  function LastTruth(m: PriceMap, moves: seq<Move>): PriceMap {
    if moves == [] then m else moves[|moves| - 1].truth
  }

  /** The held side is the venue's top ten after each move of a run. */
  ghost predicate TrueThroughout(held: seq<KrakenLevel>, moves: seq<Move>, ascending: bool)
    decreases moves
  {
    moves != [] ==>
      var next := UpdatedSide(held, moves[0].changes, ascending);
      next == Top(moves[0].truth, ascending) && TrueThroughout(next, moves[1..], ascending)
  }

  /** Over a whole run from the true top ten: the held side is right after every move if and only if every move is announced. */
  lemma {:induction false} TrueThroughoutIffAnnounced(m: PriceMap, moves: seq<Move>, ascending: bool)
    requires Coherent(m) && forall k :: 0 <= k < |moves| ==> Coherent(moves[k].truth)
    ensures TrueThroughout(Top(m, ascending), moves, ascending) <==> AnnouncedRun(m, moves, ascending)
    decreases moves
  {
    if moves != [] {
      SimulatesIffAnnounced(m, moves[0].truth, moves[0].changes, ascending);
      TrueThroughoutIffAnnounced(moves[0].truth, moves[1..], ascending);
    }
  }

  /** So at the end of any announced run the held side is still the venue's top ten. */
  lemma {:induction false} HeldSideSimulates(m: PriceMap, moves: seq<Move>, ascending: bool)
    requires Coherent(m) && AnnouncedRun(m, moves, ascending)
    ensures HeldAfter(Top(m, ascending), moves, ascending) == Top(LastTruth(m, moves), ascending)
    decreases moves
  {
    if moves != [] {
      SimulatesIffAnnounced(m, moves[0].truth, moves[0].changes, ascending);
      HeldSideSimulates(moves[0].truth, moves[1..], ascending);
      assert LastTruth(moves[0].truth, moves[1..]) == LastTruth(m, moves);
    }
  }

  /**
   When the venue changes exactly as the update says, the held side stays the true top ten if and
   only if every price that newly enters the top ten is named.
   */
  lemma SimulatesIffEntrantsNamed(m: PriceMap, changes: seq<KrakenLevel>, ascending: bool)
    requires Coherent(m)
    ensures var m' := ChangedAll(m, changes);
            UpdatedSide(Top(m, ascending), changes, ascending) == Top(m', ascending) <==>
            forall p :: InTop(m', p, ascending) && !InTop(m, p, ascending) ==> LastChange(changes, p).Some?
  {
    var m' := ChangedAll(m, changes);
    ChangedAllCoherent(m, changes);
    SimulatesIffAnnounced(m, m', changes, ascending);
    forall p
      ensures AnnouncesAt(m, m', changes, ascending, p) <==>
              (InTop(m', p, ascending) && !InTop(m, p, ascending) ==> LastChange(changes, p).Some?)
    {
      AnnouncesEntrantsAt(m, changes, ascending, p);
    }
  }

  lemma AnnouncesEntrantsAt(m: PriceMap, changes: seq<KrakenLevel>, ascending: bool, p: real)
    requires Coherent(m)
    ensures var m' := ChangedAll(m, changes);
            AnnouncesAt(m, m', changes, ascending, p) <==>
            (InTop(m', p, ascending) && !InTop(m, p, ascending) ==> LastChange(changes, p).Some?)
  {
    var m' := ChangedAll(m, changes);
    ChangedAllCoherent(m, changes);
    ChangedAllAt(m, changes, p);
    TopAt(m, p, ascending);
    TopAt(m', p, ascending);
    if !InTop(m', p, ascending) && AfterChanges(Top(m, ascending), changes, p) != [] {
      ListingLists(m', ascending);
      DroppedBeneath(Listing(m', ascending), p, ascending);
    }
  }

  /** `p` is as good as the tenth held price, or fewer than ten are held. */
  predicate WithinHeld(held: seq<KrakenLevel>, p: real, ascending: bool) {
    |held| < DEPTH || (if ascending then p <= held[DEPTH - 1].price else held[DEPTH - 1].price <= p)
  }

  lemma NothingDroppedWithinHeld(m: PriceMap, ascending: bool, p: real)
    requires Coherent(m) && WithinHeld(Top(m, ascending), p, ascending)
    ensures At(Dropped(Listing(m, ascending)), p) == []
  {
    var whole := Listing(m, ascending);
    ListingLists(m, ascending);
    forall k | DEPTH <= k < |whole| ensures whole[k].price != p {
      assert SideOrder(ascending)(whole[DEPTH - 1], whole[k]);
      assert At(whole, whole[k].price) == MapAt(m, whole[k].price);
      if whole[k].price == whole[DEPTH - 1].price {
        AtTwice(whole, DEPTH - 1, k);
      }
    }
    AtMember(Dropped(whole), p);
  }

  /**
   With nothing assumed about entrants, the side before truncation still agrees with the full map at
   every price as good as the old tenth, and everywhere when fewer than ten were held.
   */
  lemma UntruncatedAgreesToOldTenth(m: PriceMap, changes: seq<KrakenLevel>, ascending: bool, p: real)
    requires Coherent(m) && WithinHeld(Top(m, ascending), p, ascending)
    ensures At(UpsertAll(Top(m, ascending), changes, ascending), p) == MapAt(ChangedAll(m, changes), p)
  {
    UpsertAllAt(Top(m, ascending), changes, ascending, p);
    ChangedAllAt(m, changes, p);
    TopAt(m, p, ascending);
    NothingDroppedWithinHeld(m, ascending, p);
  }

  /** `p` is as good as every tenth price held during a run, its start included. */
  predicate WithinAllHeld(held: seq<KrakenLevel>, moves: seq<Move>, p: real, ascending: bool)
    decreases moves
  {
    && WithinHeld(held, p, ascending)
    && (moves != [] ==> WithinAllHeld(UpdatedSide(held, moves[0].changes, ascending), moves[1..], p, ascending))
  }

  /** A venue that moves exactly as its updates say, whatever they leave out of the held ten. */
  ghost predicate MovesAsSaid(m: PriceMap, moves: seq<Move>)
    decreases moves
  {
    moves != [] ==> moves[0].truth == ChangedAll(m, moves[0].changes) && MovesAsSaid(moves[0].truth, moves[1..])
  }

  ghost predicate AtMostOneEach(s: seq<KrakenLevel>) {
    forall p :: |At(s, p)| <= 1
  }

  /** At a price as good as the tenth kept, truncation drops nothing. */
  lemma CutKeepsWithin(s: seq<KrakenLevel>, p: real, ascending: bool)
    requires SideSorted(s, ascending) && |At(s, p)| <= 1 && WithinHeld(Cut(s), p, ascending)
    ensures At(Cut(s), p) == At(s, p)
  {
    CutAt(s, p);
    if At(Dropped(s), p) != [] {
      DroppedBeneath(s, p, ascending);
      assert Cut(s)[DEPTH - 1] in Cut(s);
      AtMember(Cut(s), p);
    }
  }

  lemma StepAgrees(held: seq<KrakenLevel>, m: PriceMap, changes: seq<KrakenLevel>, ascending: bool, p: real)
    requires SideSorted(held, ascending) && AtMostOneEach(held)
    requires At(held, p) == MapAt(m, p) && WithinHeld(UpdatedSide(held, changes, ascending), p, ascending)
    ensures var next := UpdatedSide(held, changes, ascending);
            && SideSorted(next, ascending) && AtMostOneEach(next)
            && At(next, p) == MapAt(ChangedAll(m, changes), p)
  {
    hide UpsertAll, ChangedAll, Filter, LastChange;
    var all := UpsertAll(held, changes, ascending);
    UpsertAllSorted(held, changes, ascending);
    forall q ensures |At(all, q)| <= 1 && |At(Cut(all), q)| <= 1 {
      UpsertAllAt(held, changes, ascending, q);
      CutAt(all, q);
    }
    UpsertAllAt(held, changes, ascending, p);
    ChangedAllAt(m, changes, p);
    CutKeepsWithin(all, p, ascending);
  }

  lemma {:induction false} RunAgrees(held: seq<KrakenLevel>, m: PriceMap, moves: seq<Move>, ascending: bool, p: real)
    requires SideSorted(held, ascending) && AtMostOneEach(held) && At(held, p) == MapAt(m, p)
    requires MovesAsSaid(m, moves) && WithinAllHeld(held, moves, p, ascending)
    ensures At(HeldAfter(held, moves, ascending), p) == MapAt(LastTruth(m, moves), p)
    decreases moves
  {
    if moves != [] {
      StepAgrees(held, m, moves[0].changes, ascending, p);
      RunAgrees(UpdatedSide(held, moves[0].changes, ascending), moves[0].truth, moves[1..], ascending, p);
      assert LastTruth(moves[0].truth, moves[1..]) == LastTruth(m, moves);
    }
  }

  /**
   Over any run with nothing assumed about entrants, the held and the true side agree at every price
   as good as all the tenth prices held so far.
   */
  lemma RunAgreesToTenths(m: PriceMap, moves: seq<Move>, ascending: bool, p: real)
    requires Coherent(m) && MovesAsSaid(m, moves) && WithinAllHeld(Top(m, ascending), moves, p, ascending)
    ensures At(HeldAfter(Top(m, ascending), moves, ascending), p) == MapAt(LastTruth(m, moves), p)
  {
    TopSorted(m, ascending);
    forall q ensures |At(Top(m, ascending), q)| <= 1 {
      TopAt(m, q, ascending);
    }
    TopAt(m, p, ascending);
    NothingDroppedWithinHeld(m, ascending, p);
    RunAgrees(Top(m, ascending), m, moves, ascending, p);
  }
}
