/** What holds of Kraken's session over every sequence of messages. */
module KrakenHistory {
  import opened Collections
  import opened Model
  import opened Sorting
  import opened KrakenSide
  import opened KrakenSimulation
  import opened KrakenSession

  /** The held book after the first `i` messages of a session. */
  function HeldAt(lib: Library, ds: seq<Delivery>, i: nat): Option<Sides>
    requires i <= |ds|
  {
    if i == 0 then None else Step(lib, HeldAt(lib, ds, i - 1), ds[i - 1]).held
  }

  /** What message `i` returns. */
  function PublishedAt(lib: Library, ds: seq<Delivery>, i: nat): Option<Book>
    requires i < |ds|
  {
    Step(lib, HeldAt(lib, ds, i), ds[i]).published
  }

  predicate IsBookMessage(d: Delivery) {
    d.message.BookMessage? && d.message.data != []
  }

  function Data(d: Delivery): BookData
    requires IsBookMessage(d)
  {
    d.message.data[0]
  }

  predicate IsSnapshot(d: Delivery) {
    IsBookMessage(d) && d.message.kind == "snapshot"
  }

  predicate IsUpdate(d: Delivery) {
    IsBookMessage(d) && d.message.kind == "update"
  }

  predicate AcceptedSnapshot(lib: Library, ds: seq<Delivery>, j: nat)
    requires j < |ds|
  {
    IsSnapshot(ds[j]) && PublishedAt(lib, ds, j).Some?
  }

  // ---------------------------------------------------------------- every held and every published book

  ghost predicate GoodHeld(lib: Library, held: Option<Sides>) {
    held.Some? ==>
      && SidesCoherent(lib, held.value)
      && SideSorted(held.value.bids, false)
      && SideSorted(held.value.asks, true)
  }

  lemma StepKeepsGood(lib: Library, held: Option<Sides>, d: Delivery)
    requires GoodHeld(lib, held)
    ensures GoodHeld(lib, Step(lib, held, d).held)
  {
    if IsSnapshot(d) && FullyParses(lib, Data(d)) {
      SnapshotSidesCoherent(lib, Data(d));
      OrderIsTotal(false);
      OrderIsTotal(true);
      SortSorted(ParsedPrefix(lib, Data(d).bids), SideOrder(false));
      SortSorted(ParsedPrefix(lib, Data(d).asks), SideOrder(true));
    } else if IsUpdate(d) && held.Some? {
      UpdatedSidesCoherent(lib, held.value, Data(d));
      UpsertAllSorted(held.value.bids, ParsedPrefix(lib, Data(d).bids), false);
      UpsertAllSorted(held.value.asks, AskChanges(lib, Data(d)), true);
    }
  }

  /** In every reachable book each number is the parse of its text, so no re-parse panics; both sides are sorted. */
  lemma {:induction false} ReachableHeldIsGood(lib: Library, ds: seq<Delivery>, i: nat)
    requires i <= |ds|
    ensures GoodHeld(lib, HeldAt(lib, ds, i))
  {
    if i > 0 {
      ReachableHeldIsGood(lib, ds, i - 1);
      StepKeepsGood(lib, HeldAt(lib, ds, i - 1), ds[i - 1]);
    }
  }

  ghost predicate QuotesSorted(qs: seq<Quote>, ascending: bool) {
    forall i, j :: 0 <= i < j < |qs| ==> if ascending then qs[i].price <= qs[j].price else qs[j].price <= qs[i].price
  }

  /** A returned book: sorted, at most ten levels a side, and carrying its own message's checksum. */
  lemma PublishedBookIsSound(lib: Library, ds: seq<Delivery>, i: nat)
    requires i < |ds| && PublishedAt(lib, ds, i).Some?
    ensures IsSnapshot(ds[i]) || IsUpdate(ds[i])
    ensures HeldAt(lib, ds, i + 1).Some?
    ensures var b, held := PublishedAt(lib, ds, i).value, HeldAt(lib, ds, i + 1).value;
            && b.bids == ToQuotes(held.bids) && b.asks == ToQuotes(held.asks)
            && |b.bids| <= DEPTH && |b.asks| <= DEPTH
            && QuotesSorted(b.bids, false) && QuotesSorted(b.asks, true)
            && lib.crc(ChecksumText(held)) == Data(ds[i]).checksum
  {
    ReachableHeldIsGood(lib, ds, i);
    StepPublishes(lib, HeldAt(lib, ds, i), ds[i]);
  }

  lemma StepPublishes(lib: Library, held: Option<Sides>, d: Delivery)
    requires GoodHeld(lib, held) && Step(lib, held, d).published.Some?
    ensures IsSnapshot(d) || IsUpdate(d)
    ensures Step(lib, held, d).held.Some?
    ensures var b, now := Step(lib, held, d).published.value, Step(lib, held, d).held.value;
            && b.bids == ToQuotes(now.bids) && b.asks == ToQuotes(now.asks)
            && |b.bids| <= DEPTH && |b.asks| <= DEPTH
            && QuotesSorted(b.bids, false) && QuotesSorted(b.asks, true)
            && lib.crc(ChecksumText(now)) == Data(d).checksum
  {
    StepKeepsGood(lib, held, d);
    SideQuotesSorted(Step(lib, held, d).held.value.bids, false);
    SideQuotesSorted(Step(lib, held, d).held.value.asks, true);
  }

  lemma SideQuotesSorted(side: seq<KrakenLevel>, ascending: bool)
    requires SideSorted(side, ascending)
    ensures QuotesSorted(ToQuotes(side), ascending)
  {
    forall j, k | 0 <= j < k < |side|
      ensures if ascending then side[j].price <= side[k].price else side[k].price <= side[j].price
    {
      assert SideOrder(ascending)(side[j], side[k]);
    }
  }

  /** A snapshot whose prices are distinct becomes the best ten of its own price map. */
  lemma SnapshotRefinesMap(lib: Library, wires: seq<WireLevel>, ascending: bool)
    requires DistinctPrices(ParsedPrefix(lib, wires))
    ensures SnapshotSide(lib, wires, ascending) == Top(SideMap(ParsedPrefix(lib, wires)), ascending)
  {
    var levels := ParsedPrefix(lib, wires);
    var s, m := SortBy(levels, SideOrder(ascending)), SideMap(levels);
    OrderIsTotal(ascending);
    SortSorted(levels, SideOrder(ascending));
    forall p ensures At(s, p) == MapAt(m, p) {
      SortStable(levels, SideOrder(ascending), AtPrice(p));
      DistinctAt(levels, p);
      SideMapAt(levels, p);
    }
    SideMapCoherent(levels);
    ListingUnique(s, m, ascending);
  }

  lemma {:induction false} DistinctAt(levels: seq<KrakenLevel>, p: real)
    requires DistinctPrices(levels)
    ensures |At(levels, p)| <= 1
  {
    if levels != [] {
      AtFirst(levels, p);
      DistinctAt(levels[1..], p);
      AtMember(levels[1..], p);
    }
  }

  // ---------------------------------------------------------------- silence after a mismatch

  /** A complete book message whose checksum is not that of the book it makes. */
  predicate Mismatch(lib: Library, held: Option<Sides>, d: Delivery) {
    && (IsSnapshot(d) || (IsUpdate(d) && held.Some?))
    && FullyParses(lib, Data(d))
    && var book := if IsSnapshot(d) then SnapshotSides(lib, Data(d)).value else UpdatedSides(lib, held.value, Data(d));
       lib.crc(ChecksumText(book)) != Data(d).checksum
  }

  /** With no book held, nothing comes back before a snapshot that is itself returned. */
  lemma {:induction false} SilentUntilSnapshot(lib: Library, ds: seq<Delivery>, from: nat, i: nat) returns (k: nat)
    requires from <= i < |ds| && HeldAt(lib, ds, from) == None && PublishedAt(lib, ds, i).Some?
    ensures from <= k <= i && AcceptedSnapshot(lib, ds, k)
    decreases i - from
  {
    StepFromNothing(lib, ds[from]);
    if PublishedAt(lib, ds, from).Some? {
      k := from;
    } else {
      k := SilentUntilSnapshot(lib, ds, from + 1, i);
    }
  }

  lemma StepFromNothing(lib: Library, d: Delivery)
    ensures Step(lib, None, d).published.Some? ==> IsSnapshot(d)
    ensures Step(lib, None, d).published.None? ==> Step(lib, None, d).held == None
  {
  }

  lemma StepOnMismatch(lib: Library, held: Option<Sides>, d: Delivery)
    requires Mismatch(lib, held, d)
    ensures Step(lib, held, d) == Outcome(None, None)
  {
  }

  /**
   A checksum mismatch returns nothing and drops the book, whatever came before: with
   `SilentUntilSnapshot`, nothing is returned again until a snapshot passes its checksum.
   */
  lemma MismatchClears(lib: Library, ds: seq<Delivery>, m: nat)
    requires m < |ds| && Mismatch(lib, HeldAt(lib, ds, m), ds[m])
    ensures PublishedAt(lib, ds, m) == None && HeldAt(lib, ds, m + 1) == None
  {
    StepOnMismatch(lib, HeldAt(lib, ds, m), ds[m]);
  }

  // ---------------------------------------------------------------- the held book as a fold

  /** What one message does to one side: level changes, then perhaps a truncation. */
  datatype Batch = Batch(changes: seq<KrakenLevel>, cut: bool)

  function BatchOf(lib: Library, d: Delivery, ascending: bool): Batch {
    if !IsUpdate(d) then Batch([], false)
    else Batch(if ascending then AskChanges(lib, Data(d)) else ParsedPrefix(lib, Data(d).bids), FullyParses(lib, Data(d)))
  }

  function Applied(side: seq<KrakenLevel>, batch: Batch, ascending: bool): seq<KrakenLevel> {
    var changed := UpsertAll(side, batch.changes, ascending);
    if batch.cut then Cut(changed) else changed
  }

  /** `side` after messages `k` to `i - 1`. */
  function Replay(lib: Library, side: seq<KrakenLevel>, ds: seq<Delivery>, k: nat, i: nat, ascending: bool): seq<KrakenLevel>
    requires k <= i <= |ds|
    decreases i
  {
    if i == k then side
    else Applied(Replay(lib, side, ds, k, i - 1, ascending), BatchOf(lib, ds[i - 1], ascending), ascending)
  }

  function AppliedBoth(lib: Library, held: Sides, d: Delivery): Sides {
    Sides(Applied(held.bids, BatchOf(lib, d, false), false), Applied(held.asks, BatchOf(lib, d, true), true))
  }

  /** Any message but an accepted snapshot, if it leaves a book, has applied its batches to the one held. */
  lemma StepIsBatch(lib: Library, held: Option<Sides>, d: Delivery)
    requires Step(lib, held, d).held.Some?
    requires !(IsSnapshot(d) && Step(lib, held, d).published.Some?)
    ensures held.Some? && Step(lib, held, d).held == Some(AppliedBoth(lib, held.value, d))
  {
  }

  /** The last snapshot accepted among the first `i` messages. */
  function LastSnapshot(lib: Library, ds: seq<Delivery>, i: nat): (k: Option<nat>)
    requires i <= |ds|
    ensures k.Some? ==> k.value < i && AcceptedSnapshot(lib, ds, k.value)
  {
    if i == 0 then None
    else if AcceptedSnapshot(lib, ds, i - 1) then Some(i - 1)
    else LastSnapshot(lib, ds, i - 1)
  }

  /** A book after messages `k` to `i - 1`, none of them an accepted snapshot. */
  function ReplayBoth(lib: Library, start: Sides, ds: seq<Delivery>, k: nat, i: nat): Sides
    requires k <= i <= |ds|
    decreases i
  {
    if i == k then start else AppliedBoth(lib, ReplayBoth(lib, start, ds, k, i - 1), ds[i - 1])
  }

  lemma {:induction false} ReplayBothSides(lib: Library, start: Sides, ds: seq<Delivery>, k: nat, i: nat)
    requires k <= i <= |ds|
    ensures ReplayBoth(lib, start, ds, k, i)
         == Sides(Replay(lib, start.bids, ds, k, i, false), Replay(lib, start.asks, ds, k, i, true))
    decreases i
  {
    if i > k {
      ReplayBothSides(lib, start, ds, k, i - 1);
    }
  }

  /**
   A held book always goes back to an accepted snapshot: it is the last one, with every change made
   since replayed on it, among them the leading changes of updates that failed part-way.
   */
  lemma {:induction false} HeldIsReplay(lib: Library, ds: seq<Delivery>, i: nat)
    requires i <= |ds| && HeldAt(lib, ds, i).Some?
    ensures LastSnapshot(lib, ds, i).Some?
    ensures var k := LastSnapshot(lib, ds, i).value;
            && SnapshotSides(lib, Data(ds[k])).Some?
            && HeldAt(lib, ds, i).value == ReplayBoth(lib, SnapshotSides(lib, Data(ds[k])).value, ds, k + 1, i)
  {
    if !AcceptedSnapshot(lib, ds, i - 1) {
      StepIsBatch(lib, HeldAt(lib, ds, i - 1), ds[i - 1]);
      HeldIsReplay(lib, ds, i - 1);
    }
  }

  /** The changes of messages `k` to `i - 1`, as one list. */
  function AllChanges(lib: Library, ds: seq<Delivery>, k: nat, i: nat, ascending: bool): seq<KrakenLevel>
    requires k <= i <= |ds|
    decreases i
  {
    if i == k then [] else AllChanges(lib, ds, k, i - 1, ascending) + BatchOf(lib, ds[i - 1], ascending).changes
  }

  lemma {:induction false} UpsertAllSplit(s: seq<KrakenLevel>, a: seq<KrakenLevel>, b: seq<KrakenLevel>, ascending: bool)
    ensures UpsertAll(s, a + b, ascending) == UpsertAll(UpsertAll(s, a, ascending), b, ascending)
    decreases a
  {
    if a == [] {
      assert a + b == b;
    } else {
      assert (a + b)[1..] == a[1..] + b;
      UpsertAllSplit(Upserted(s, a[0], ascending), a[1..], b, ascending);
    }
  }

  /**
   Truncation only ever loses levels: at each price the replayed side holds a prefix of what the
   snapshot with all changes and no truncation would, so every level it has is the last word on its
   price.
   */
  lemma {:induction false} ReplayHoldsLastWords(lib: Library, side: seq<KrakenLevel>, ds: seq<Delivery>, k: nat, i: nat,
      ascending: bool, p: real)
    requires k <= i <= |ds|
    ensures At(Replay(lib, side, ds, k, i, ascending), p)
         <= At(UpsertAll(side, AllChanges(lib, ds, k, i, ascending), ascending), p)
    decreases i
  {
    hide BatchOf, UpsertAll, At, Applied;
    if i > k {
      var before, earlier := Replay(lib, side, ds, k, i - 1, ascending), AllChanges(lib, ds, k, i - 1, ascending);
      var batch := BatchOf(lib, ds[i - 1], ascending);
      assert At(before, p) <= At(UpsertAll(side, earlier, ascending), p) by {
        ReplayHoldsLastWords(lib, side, ds, k, i - 1, ascending, p);
      }
      AppliedHoldsLastWords(before, side, earlier, batch, ascending, p);
      assert Replay(lib, side, ds, k, i, ascending) == Applied(before, batch, ascending);
      assert AllChanges(lib, ds, k, i, ascending) == earlier + batch.changes;
    } else {
      NoChanges(side, ascending);
    }
  }

  lemma NoChanges(side: seq<KrakenLevel>, ascending: bool)
    ensures UpsertAll(side, [], ascending) == side
  {
  }

  lemma AppliedHoldsLastWords(before: seq<KrakenLevel>, side: seq<KrakenLevel>, earlier: seq<KrakenLevel>, batch: Batch,
      ascending: bool, p: real)
    requires At(before, p) <= At(UpsertAll(side, earlier, ascending), p)
    ensures At(Applied(before, batch, ascending), p) <= At(UpsertAll(side, earlier + batch.changes, ascending), p)
  {
    UpsertAllSplit(side, earlier, batch.changes, ascending);
    UpsertAllAt(before, batch.changes, ascending, p);
    UpsertAllAt(UpsertAll(side, earlier, ascending), batch.changes, ascending, p);
    CutAt(UpsertAll(before, batch.changes, ascending), p);
  }

  /** A level of a held side is the last change to its price since the snapshot, or the snapshot's own. */
  lemma HeldLevelIsLastWord(lib: Library, ds: seq<Delivery>, i: nat, ascending: bool, l: KrakenLevel)
    requires i <= |ds| && HeldAt(lib, ds, i).Some?
    requires l in if ascending then HeldAt(lib, ds, i).value.asks else HeldAt(lib, ds, i).value.bids
    ensures LastSnapshot(lib, ds, i).Some? && SnapshotSides(lib, Data(ds[LastSnapshot(lib, ds, i).value])).Some?
    ensures var k := LastSnapshot(lib, ds, i).value;
            var start := SnapshotSides(lib, Data(ds[k])).value;
            var word := LastChange(AllChanges(lib, ds, k + 1, i, ascending), l.price);
            if word.Some? then word.value == l && l.qty != 0.0 else l in if ascending then start.asks else start.bids
  {
    hide Step, Replay, AllChanges, ReplayBoth, SnapshotSides, LastChange;
    HeldIsReplay(lib, ds, i);
    var k := LastSnapshot(lib, ds, i).value;
    var start := SnapshotSides(lib, Data(ds[k])).value;
    ReplayBothSides(lib, start, ds, k + 1, i);
    LevelIsLastWord(lib, if ascending then start.asks else start.bids, ds, k + 1, i, ascending, l);
  }

  lemma LevelIsLastWord(lib: Library, side: seq<KrakenLevel>, ds: seq<Delivery>, k: nat, i: nat, ascending: bool, l: KrakenLevel)
    requires k <= i <= |ds| && l in Replay(lib, side, ds, k, i, ascending)
    ensures var word := LastChange(AllChanges(lib, ds, k, i, ascending), l.price);
            if word.Some? then word.value == l && l.qty != 0.0 else l in side
  {
    var replayed, changes := Replay(lib, side, ds, k, i, ascending), AllChanges(lib, ds, k, i, ascending);
    assert l in At(UpsertAll(side, changes, ascending), l.price) by {
      ReplayHoldsLastWords(lib, side, ds, k, i, ascending, l.price);
      FilterElements(replayed, AtPrice(l.price));
    }
    UpsertAllAt(side, changes, ascending, l.price);
    AtMember(side, l.price);
  }

  // ---------------------------------------------------------------- repeated and failing updates

  lemma RepeatedSides(lib: Library, book: Sides, data: BookData)
    requires GoodHeld(lib, Some(book))
    ensures UpdatedSides(lib, UpdatedSides(lib, book, data), data) == UpdatedSides(lib, book, data)
  {
    UpdateIdempotent(book.bids, ParsedPrefix(lib, data.bids), false);
    UpdateIdempotent(book.asks, AskChanges(lib, data), true);
    UpsertAllIdempotent(book.bids, ParsedPrefix(lib, data.bids), false);
    UpsertAllIdempotent(book.asks, AskChanges(lib, data), true);
  }

  /** A repeated update is accepted exactly when the first one was, and changes nothing. */
  lemma RepeatedUpdate(lib: Library, held: Option<Sides>, d: Delivery, again: Delivery)
    requires GoodHeld(lib, held) && IsUpdate(d) && again.message == d.message
    ensures var first := Step(lib, held, d);
            var second := Step(lib, first.held, again);
            && second.held == first.held
            && (second.published.Some? <==> first.published.Some?)
            && (first.published.Some? ==>
                  second.published.value.bids == first.published.value.bids && second.published.value.asks == first.published.value.asks)
  {
    if held.Some? {
      RepeatedSides(lib, held.value, Data(d));
    }
  }

  /** The changes before a failure already are what the side holds. */
  ghost predicate AlreadyHeld(side: seq<KrakenLevel>, changes: seq<KrakenLevel>) {
    forall c :: c in changes && LastChange(changes, c.price) == Some(c) ==> At(side, c.price) == Meaning(c)
  }

  /**
   An update that fails part-way is not undone: the held book stays as it was if and only if the
   changes before the failure were no news to it.
   */
  lemma FailedUpdateHarmlessIff(lib: Library, held: Sides, d: Delivery)
    requires GoodHeld(lib, Some(held)) && IsUpdate(d) && !FullyParses(lib, Data(d))
    ensures Step(lib, Some(held), d).published == None
    ensures Step(lib, Some(held), d).held == Some(held) <==>
            AlreadyHeld(held.bids, ParsedPrefix(lib, Data(d).bids)) && AlreadyHeld(held.asks, AskChanges(lib, Data(d)))
  {
    HarmlessSide(held.bids, ParsedPrefix(lib, Data(d).bids), false);
    HarmlessSide(held.asks, AskChanges(lib, Data(d)), true);
  }

  lemma HarmlessSide(side: seq<KrakenLevel>, changes: seq<KrakenLevel>, ascending: bool)
    requires SideSorted(side, ascending)
    ensures UpsertAll(side, changes, ascending) == side <==> AlreadyHeld(side, changes)
  {
    if AlreadyHeld(side, changes) {
      forall p ensures At(UpsertAll(side, changes, ascending), p) == At(side, p) {
        UpsertAllAt(side, changes, ascending, p);
        LastChangeIsChange(changes, p);
      }
      UpsertAllSorted(side, changes, ascending);
      SameAtSameSide(UpsertAll(side, changes, ascending), side, ascending);
    }
    if UpsertAll(side, changes, ascending) == side {
      forall c | c in changes && LastChange(changes, c.price) == Some(c) ensures At(side, c.price) == Meaning(c) {
        UpsertAllAt(side, changes, ascending, c.price);
      }
    }
  }

  // ---------------------------------------------------------------- the session simulates the venue

  /** The venue's own full book. */
  datatype Truth = Truth(bids: PriceMap, asks: PriceMap)

  ghost function TopSides(t: Truth): Sides {
    Sides(Top(t.bids, false), Top(t.asks, true))
  }

  ghost predicate CoherentTruth(t: Truth) {
    Coherent(t.bids) && Coherent(t.asks)
  }

  /** An update that announces the venue's move on both sides, with the checksum of its true top ten. */
  ghost predicate TrueUpdate(lib: Library, d: Delivery, t: Truth, t': Truth) {
    && IsUpdate(d) && FullyParses(lib, Data(d))
    && Announces(t.bids, t'.bids, ParsedPrefix(lib, Data(d).bids), false)
    && Announces(t.asks, t'.asks, ParsedPrefix(lib, Data(d).asks), true)
    && Data(d).checksum == lib.crc(ChecksumText(TopSides(t')))
  }

  /** Holding the true top ten, a true update is accepted and publishes the new true top ten. */
  lemma TrueUpdatePublishesTop(lib: Library, d: Delivery, t: Truth, t': Truth)
    requires CoherentTruth(t) && CoherentTruth(t') && TrueUpdate(lib, d, t, t')
    ensures Step(lib, Some(TopSides(t)), d)
         == Outcome(Some(TopSides(t')), Some(ModelBook(TopSides(t'), d.startedAt, d.parsedAt)))
  {
    SimulatesIffAnnounced(t.bids, t'.bids, ParsedPrefix(lib, Data(d).bids), false);
    SimulatesIffAnnounced(t.asks, t'.asks, ParsedPrefix(lib, Data(d).asks), true);
  }

  /** A snapshot of the venue's top ten, with its checksum. */
  ghost predicate TrueSnapshot(lib: Library, d: Delivery, t: Truth) {
    && IsSnapshot(d)
    && SnapshotSides(lib, Data(d)) == Some(TopSides(t))
    && Data(d).checksum == lib.crc(ChecksumText(TopSides(t)))
  }

  /** A message that carries no change: of another channel, undecodable, empty or of an unknown kind. */
  predicate Quiet(d: Delivery) {
    !IsSnapshot(d) && !IsUpdate(d)
  }

  /**
   Sessions with an honest venue on one parser: snapshots of its top ten, at the start and again
   after each reconnect whatever happened meanwhile, updates announcing each move, and quiet
   messages. `truths[i]` is the venue's book when message `i` left it.
   */
  ghost predicate HonestSession(lib: Library, ds: seq<Delivery>, truths: seq<Truth>) {
    && |ds| == |truths|
    && (forall i :: 0 <= i < |truths| ==> CoherentTruth(truths[i]))
    && (forall i :: 0 <= i < |ds| ==> HonestMessage(lib, ds, truths, i))
  }

  ghost predicate HonestMessage(lib: Library, ds: seq<Delivery>, truths: seq<Truth>, i: nat)
    requires i < |ds| == |truths|
  {
    || TrueSnapshot(lib, ds[i], truths[i])
    || (i > 0 && TrueUpdate(lib, ds[i], truths[i - 1], truths[i]))
    || (Quiet(ds[i]) && (i > 0 ==> TopSides(truths[i]) == TopSides(truths[i - 1])))
  }

  /** A snapshot has come by message `i`. */
  predicate Started(ds: seq<Delivery>, i: nat)
    requires i < |ds|
  {
    IsSnapshot(ds[i]) || (i > 0 && Started(ds, i - 1))
  }

  lemma TrueSnapshotPublishesTop(lib: Library, held: Option<Sides>, d: Delivery, t: Truth)
    requires TrueSnapshot(lib, d, t)
    ensures Step(lib, held, d) == Outcome(Some(TopSides(t)), Some(ModelBook(TopSides(t), d.startedAt, d.parsedAt)))
  {
  }

  lemma QuietStep(lib: Library, held: Option<Sides>, d: Delivery)
    requires Quiet(d)
    ensures Step(lib, held, d) == Outcome(held, None)
  {
  }

  /** From the first snapshot on, the held and the published book are the venue's true top ten; before, there is none. */
  lemma {:induction false} HonestSessionPublishesTop(lib: Library, ds: seq<Delivery>, truths: seq<Truth>, i: nat)
    requires HonestSession(lib, ds, truths) && i < |ds|
    ensures HeldAt(lib, ds, i + 1) == if Started(ds, i) then Some(TopSides(truths[i])) else None
    ensures PublishedAt(lib, ds, i) ==
            if Started(ds, i) && !Quiet(ds[i]) then Some(ModelBook(TopSides(truths[i]), ds[i].startedAt, ds[i].parsedAt)) else None
  {
    assert HonestMessage(lib, ds, truths, i);
    if i > 0 {
      HonestSessionPublishesTop(lib, ds, truths, i - 1);
    }
    if TrueSnapshot(lib, ds[i], truths[i]) {
      TrueSnapshotPublishesTop(lib, HeldAt(lib, ds, i), ds[i], truths[i]);
    } else if Quiet(ds[i]) {
      QuietStep(lib, HeldAt(lib, ds, i), ds[i]);
    } else if Started(ds, i - 1) {
      assert CoherentTruth(truths[i - 1]) && CoherentTruth(truths[i]);
      TrueUpdatePublishesTop(lib, ds[i], truths[i - 1], truths[i]);
    } else {
      StepFromNothing(lib, ds[i]);
    }
  }
}
