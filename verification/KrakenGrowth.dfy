/**
 How long a held side is. Only a complete update truncates, so an update that fails part-way can
 leave more than ten levels; here is exactly when it does.
 */
module KrakenGrowth {
  import opened Collections
  import opened Numerals
  import opened Sorting
  import opened KrakenSide
  import opened KrakenSession
  import opened KrakenHistory

  // ---------------------------------------------------------------- counting the levels of a changed side

  /** The changes that have the last word on their price and leave a level there. */
  function LastWords(changes: seq<KrakenLevel>): seq<KrakenLevel> {
    if changes == [] then []
    else (if LastChange(changes[1..], changes[0].price).None? then Meaning(changes[0]) else []) + LastWords(changes[1..])
  }

  function Unnamed(changes: seq<KrakenLevel>): real -> bool {
    (p: real) => LastChange(changes, p).None?
  }

  /** The levels at prices the changes do not name. */
  function Untouched(side: seq<KrakenLevel>, changes: seq<KrakenLevel>): seq<KrakenLevel> {
    Filter(side, KeptPrice(Unnamed(changes)))
  }

  lemma {:induction false} LastWordsAt(changes: seq<KrakenLevel>, p: real)
    ensures At(LastWords(changes), p)
         == if LastChange(changes, p).Some? then Meaning(LastChange(changes, p).value) else []
  {
    if changes != [] {
      var first, rest := changes[0], changes[1..];
      var word := if LastChange(rest, first.price).None? then Meaning(first) else [];
      LastWordsAt(rest, p);
      FilterConcat(word, LastWords(rest), AtPrice(p));
      assert Meaning(first) != [] ==> Meaning(first)[1..] == [];
      assert At(word, p) == if first.price == p then word else [];
      assert At(word, p) + [] == At(word, p) && [] + At(LastWords(rest), p) == At(LastWords(rest), p);
    }
  }

  /** A changed side is its untouched levels and the last words, sorted. */
  lemma UpsertAllIsSort(side: seq<KrakenLevel>, changes: seq<KrakenLevel>, ascending: bool)
    requires SideSorted(side, ascending)
    ensures UpsertAll(side, changes, ascending) == SortBy(Untouched(side, changes) + LastWords(changes), SideOrder(ascending))
  {
    var parts := Untouched(side, changes) + LastWords(changes);
    OrderIsTotal(ascending);
    SortSorted(parts, SideOrder(ascending));
    UpsertAllSorted(side, changes, ascending);
    forall p ensures At(SortBy(parts, SideOrder(ascending)), p) == At(UpsertAll(side, changes, ascending), p) {
      SortStable(parts, SideOrder(ascending), AtPrice(p));
      FilterConcat(Untouched(side, changes), LastWords(changes), AtPrice(p));
      AtOfFilter(side, Unnamed(changes), p);
      LastWordsAt(changes, p);
      UpsertAllAt(side, changes, ascending, p);
    }
    SameAtSameSide(SortBy(parts, SideOrder(ascending)), UpsertAll(side, changes, ascending), ascending);
  }

  /** How many levels a side has after these changes and no truncation. */
  function Grown(side: seq<KrakenLevel>, changes: seq<KrakenLevel>): nat {
    |Untouched(side, changes)| + |LastWords(changes)|
  }

  /** An update that fails keeps a side within ten levels if and only if the untouched and the new ones fit. */
  lemma FailedUpdateWithinDepthIff(lib: Library, held: Sides, d: Delivery)
    requires GoodHeld(lib, Some(held)) && IsUpdate(d) && !FullyParses(lib, Data(d))
    ensures Step(lib, Some(held), d).held.Some? && Step(lib, Some(held), d).published == None
    ensures var after := Step(lib, Some(held), d).held.value;
            && (|after.bids| <= DEPTH <==> Grown(held.bids, ParsedPrefix(lib, Data(d).bids)) <= DEPTH)
            && (|after.asks| <= DEPTH <==> Grown(held.asks, AskChanges(lib, Data(d))) <= DEPTH)
  {
    UpsertAllIsSort(held.bids, ParsedPrefix(lib, Data(d).bids), false);
    UpsertAllIsSort(held.asks, AskChanges(lib, Data(d)), true);
  }

  // ---------------------------------------------------------------- over a whole session

  /** The last message among the first `i` that returned a book. */
  function LastReturned(lib: Library, ds: seq<Delivery>, i: nat): (k: Option<nat>)
    requires i <= |ds|
    ensures k.Some? ==> k.value < i && PublishedAt(lib, ds, k.value).Some?
  {
    if i == 0 then None
    else if PublishedAt(lib, ds, i - 1).Some? then Some(i - 1)
    else LastReturned(lib, ds, i - 1)
  }

  /** No message from `k` to `i - 1` truncates. */
  predicate Uncut(lib: Library, ds: seq<Delivery>, k: nat, i: nat)
    requires k <= i <= |ds|
    decreases i
  {
    i > k ==> Uncut(lib, ds, k, i - 1) && !BatchOf(lib, ds[i - 1], false).cut && !BatchOf(lib, ds[i - 1], true).cut
  }

  /** A message that returns nothing, if it leaves a book, has made changes to the one held and cut nothing. */
  lemma SilentStep(lib: Library, held: Option<Sides>, d: Delivery)
    requires Step(lib, held, d).held.Some? && Step(lib, held, d).published.None?
    ensures held.Some? && Step(lib, held, d).held == Some(AppliedBoth(lib, held.value, d))
    ensures !BatchOf(lib, d, false).cut && !BatchOf(lib, d, true).cut
  {
    StepIsBatch(lib, held, d);
  }

  /** No message since the last one that returned a book has truncated the held one. */
  lemma {:induction false} UncutSinceReturned(lib: Library, ds: seq<Delivery>, i: nat)
    requires i <= |ds| && HeldAt(lib, ds, i).Some?
    ensures LastReturned(lib, ds, i).Some? && Uncut(lib, ds, LastReturned(lib, ds, i).value + 1, i)
  {
    if PublishedAt(lib, ds, i - 1).None? {
      SilentStep(lib, HeldAt(lib, ds, i - 1), ds[i - 1]);
      UncutSinceReturned(lib, ds, i - 1);
    }
  }

  /** And the held book is the returned one with what came since replayed. */
  lemma {:induction false} ReplaySinceReturned(lib: Library, ds: seq<Delivery>, k: nat, i: nat)
    requires k < i <= |ds| && LastReturned(lib, ds, i) == Some(k) && HeldAt(lib, ds, i).Some?
    ensures HeldAt(lib, ds, k + 1).Some?
    ensures HeldAt(lib, ds, i).value == ReplayBoth(lib, HeldAt(lib, ds, k + 1).value, ds, k + 1, i)
  {
    hide Step;
    if i > k + 1 {
      SilentStep(lib, HeldAt(lib, ds, i - 1), ds[i - 1]);
      ReplaySinceReturned(lib, ds, k, i - 1);
    }
  }

  /** Replaying without truncation is making all the changes at once. */
  lemma {:induction false} UncutReplay(lib: Library, side: seq<KrakenLevel>, ds: seq<Delivery>, k: nat, i: nat, ascending: bool)
    requires k <= i <= |ds| && Uncut(lib, ds, k, i)
    ensures Replay(lib, side, ds, k, i, ascending) == UpsertAll(side, AllChanges(lib, ds, k, i, ascending), ascending)
    decreases i
  {
    if i > k {
      UncutReplay(lib, side, ds, k, i - 1, ascending);
      UpsertAllSplit(side, AllChanges(lib, ds, k, i - 1, ascending), BatchOf(lib, ds[i - 1], ascending).changes, ascending);
    }
  }

  /** How long both sides of a book are after messages that truncate nothing. */
  lemma UncutLengths(lib: Library, held: Option<Sides>, ds: seq<Delivery>, k: nat, i: nat, now: Sides)
    requires GoodHeld(lib, held) && held.Some? && k <= i <= |ds| && Uncut(lib, ds, k, i)
    requires now == ReplayBoth(lib, held.value, ds, k, i)
    ensures |now.bids| <= DEPTH <==> Grown(held.value.bids, AllChanges(lib, ds, k, i, false)) <= DEPTH
    ensures |now.asks| <= DEPTH <==> Grown(held.value.asks, AllChanges(lib, ds, k, i, true)) <= DEPTH
  {
    ReplayBothSides(lib, held.value, ds, k, i);
    UncutReplay(lib, held.value.bids, ds, k, i, false);
    UncutReplay(lib, held.value.asks, ds, k, i, true);
    UpsertAllIsSort(held.value.bids, AllChanges(lib, ds, k, i, false), false);
    UpsertAllIsSort(held.value.asks, AllChanges(lib, ds, k, i, true), true);
  }

  /**
   In any session and at any time a held side is within ten levels if and only if the levels of the
   last returned book at prices not named since, and the last words since, are together at most ten.
   */
  lemma HeldWithinDepthIff(lib: Library, ds: seq<Delivery>, i: nat)
    requires i <= |ds| && HeldAt(lib, ds, i).Some?
    ensures LastReturned(lib, ds, i).Some? && HeldAt(lib, ds, LastReturned(lib, ds, i).value + 1).Some?
    ensures var k, held := LastReturned(lib, ds, i).value, HeldAt(lib, ds, i).value;
            var returned := HeldAt(lib, ds, k + 1).value;
            && (|held.bids| <= DEPTH <==> Grown(returned.bids, AllChanges(lib, ds, k + 1, i, false)) <= DEPTH)
            && (|held.asks| <= DEPTH <==> Grown(returned.asks, AllChanges(lib, ds, k + 1, i, true)) <= DEPTH)
  {
    hide *;
    UncutSinceReturned(lib, ds, i);
    var k := LastReturned(lib, ds, i).value;
    ReplaySinceReturned(lib, ds, k, i);
    assert GoodHeld(lib, HeldAt(lib, ds, k + 1)) by {
      ReachableHeldIsGood(lib, ds, k + 1);
    }
    UncutLengths(lib, HeldAt(lib, ds, k + 1), ds, k + 1, i, HeldAt(lib, ds, i).value);
  }

  // ---------------------------------------------------------------- ten distinct bids, then an eleventh

  /** A change to a price the side does not hold adds one level. */
  lemma NewPriceGrows(side: seq<KrakenLevel>, l: KrakenLevel)
    requires l.qty != 0.0 && forall k :: k in side ==> k.price != l.price
    ensures Grown(side, [l]) == |side| + 1
  {
    assert [l][1..] == [] && LastWords([l]) == [l];
    forall k | k in side ensures KeptPrice(Unnamed([l]))(k) {
      assert LastChange([l], k.price) == None;
    }
    FilterAllOrNothing(side, KeptPrice(Unnamed([l])));
  }

  lemma {:induction false} AllParseLength(lib: Library, wires: seq<WireLevel>)
    requires AllParse(lib, wires)
    ensures |ParsedPrefix(lib, wires)| == |wires|
    ensures forall l :: l in ParsedPrefix(lib, wires) ==> exists i :: 0 <= i < |wires| && wires[i].ToLevel(lib) == Some(l)
  {
    if wires != [] {
      AllParseLength(lib, wires[1..]);
      forall l | l in ParsedPrefix(lib, wires) ensures exists i :: 0 <= i < |wires| && wires[i].ToLevel(lib) == Some(l) {
        if l in ParsedPrefix(lib, wires[1..]) {
          var i :| 0 <= i < |wires[1..]| && wires[1..][i].ToLevel(lib) == Some(l);
          assert wires[i + 1].ToLevel(lib) == Some(l);
        }
      }
    }
  }

  /**
   After any snapshot of ten bids, an update that begins with a bid at another price and goes on
   with one that does not parse leaves eleven, returns nothing and truncates nothing.
   */
  lemma EleventhBidHeld(lib: Library, wires: seq<WireLevel>, other: WireLevel, bad: WireLevel) returns (d: Delivery, d': Delivery)
    requires |wires| == DEPTH && AllParse(lib, wires)
    requires other.ToLevel(lib).Some? && other.ToLevel(lib).value.qty != 0.0 && bad.ToLevel(lib).None?
    requires forall i :: 0 <= i < |wires| ==> wires[i].ToLevel(lib).value.price != other.ToLevel(lib).value.price
    ensures PublishedAt(lib, [d, d'], 0).Some? && PublishedAt(lib, [d, d'], 1) == None
    ensures HeldAt(lib, [d, d'], 2).Some? && |HeldAt(lib, [d, d'], 2).value.bids| == DEPTH + 1
  {
    var l := other.ToLevel(lib).value;
    var start := Sides(SnapshotSide(lib, wires, false), []);
    var snapshot := BookData(wires, [], lib.crc(ChecksumText(start)));
    var update := BookData([other, bad], [], 0);
    d := Delivery(BookMessage("snapshot", [snapshot]), 0.0, 0.0);
    d' := Delivery(BookMessage("update", [update]), 0.0, 0.0);
    assert |start.bids| == DEPTH && SideSorted(start.bids, false) && forall k :: k in start.bids ==> k.price != l.price by {
      SnapshotBids(lib, wires);
    }
    assert |UpsertAll(start.bids, [l], false)| == DEPTH + 1 by {
      NewPriceGrows(start.bids, l);
      UpsertAllIsSort(start.bids, [l], false);
    }
    OneThenFailure(lib, other, bad);
    TwoSteps(lib, d, d', start);
  }

  /** A snapshot side of at most ten levels holds what the wire says, and nothing else. */
  lemma SnapshotBids(lib: Library, wires: seq<WireLevel>)
    requires |wires| <= DEPTH && AllParse(lib, wires)
    ensures |SnapshotSide(lib, wires, false)| == |wires| && SideSorted(SnapshotSide(lib, wires, false), false)
    ensures forall l :: l in SnapshotSide(lib, wires, false) ==> exists i :: 0 <= i < |wires| && wires[i].ToLevel(lib) == Some(l)
  {
    AllParseLength(lib, wires);
    OrderIsTotal(false);
    SortSorted(ParsedPrefix(lib, wires), SideOrder(false));
    SortElements(ParsedPrefix(lib, wires), SideOrder(false));
  }

  lemma OneThenFailure(lib: Library, other: WireLevel, bad: WireLevel)
    requires other.ToLevel(lib).Some? && bad.ToLevel(lib).None?
    ensures ParsedPrefix(lib, [other, bad]) == [other.ToLevel(lib).value] && !AllParse(lib, [other, bad])
  {
    assert [other, bad][1..] == [bad];
    assert [other, bad][1].ToLevel(lib).None?;
  }

  lemma TwoSteps(lib: Library, d: Delivery, d': Delivery, start: Sides)
    requires Step(lib, None, d).held == Some(start)
    ensures PublishedAt(lib, [d, d'], 0) == Step(lib, None, d).published
    ensures HeldAt(lib, [d, d'], 2) == Step(lib, Some(start), d').held
    ensures PublishedAt(lib, [d, d'], 1) == Step(lib, Some(start), d').published
  {
    assert HeldAt(lib, [d, d'], 0) == None;
    assert HeldAt(lib, [d, d'], 1) == Some(start);
  }

  /** Bids of one unit at 10 to 19. */
  function TenBids(): seq<WireLevel> {
    seq(DEPTH, i requires 0 <= i < DEPTH => WireLevel(['1', Digit(i)], "1"))
  }

  function Digit(i: nat): (c: char)
    requires i < 10
    ensures IsDigit(c) && DigitValue(c) == i
  {
    '0' + i as char
  }

  /** With exact decimal parsing and any checksum: ten bids at 10 to 19, then a bid at 9 followed by `null`. */
  lemma ElevenBidsHeld(crc: string -> nat) returns (d: Delivery, d': Delivery)
    ensures var lib := Library(ParseNumber, crc);
            && PublishedAt(lib, [d, d'], 0).Some? && PublishedAt(lib, [d, d'], 1) == None
            && HeldAt(lib, [d, d'], 2).Some? && |HeldAt(lib, [d, d'], 2).value.bids| == DEPTH + 1
  {
    var lib, wires := Library(ParseNumber, crc), TenBids();
    forall i | 0 <= i < DEPTH ensures wires[i].ToLevel(lib).Some? && wires[i].ToLevel(lib).value.price == (10 + i) as real {
      TenBidsParse(lib, i);
    }
    SomeTexts();
    d, d' := EleventhBidHeld(lib, wires, WireLevel("9", "1"), WireLevel("null", "1"));
  }

  lemma TenBidsParse(lib: Library, i: nat)
    requires lib.parse == ParseNumber && i < DEPTH
    ensures TenBids()[i].ToLevel(lib).Some? && TenBids()[i].ToLevel(lib).value.price == (10 + i) as real
  {
    SomeTexts();
    TwoDigits(Digit(i));
  }

  lemma SomeTexts()
    ensures ParseNumber("1") == Some(1.0) && ParseNumber("9") == Some(9.0) && ParseNumber("null") == None
  {
    hide ParseNumber;
    PlainNumber("1");
    PlainNumber("9");
    NoNumber("null");
  }

  lemma TwoDigits(c: char)
    requires IsDigit(c)
    ensures ParseNumber(['1', c]) == Some((10 + DigitValue(c)) as real)
  {
    var s := ['1', c];
    assert s[..1] == "1" && NatOf("1") == 1;
    PlainNumber(s);
  }

  /** Digits alone are read as the number they denote. */
  lemma PlainNumber(s: string)
    requires s != [] && AllDigits(s)
    ensures ParseNumber(s) == Some(NatOf(s) as real)
  {
    hide ParseNumber, ParseMantissa;
    NoDot(s);
    DigitTextIsMantissa(s);
    MantissaOfDigitText(s);
    assert Pow10(0) == 1;
  }

  lemma NoDot(s: string)
    requires s != [] && AllDigits(s)
    ensures DigitText(s) && Undotted(s) == s && Decimals(s) == 0
  {
    assert IndexOf(s, '.') == |s| && s[..|s|] + [] == s;
  }

  /** Text of letters without an exponent mark is no number. */
  lemma NoNumber(s: string)
    requires s != [] && forall i :: 0 <= i < |s| ==> !IsDigit(s[i]) && s[i] !in "+-.eE"
    ensures ParseNumber(s) == None
  {
    assert IndexOf(s, 'e') == |s| && IndexOf(s, 'E') == |s| && IndexOf(s, '.') == |s|;
    assert s[..|s|] + [] == s;
    assert ParseMantissa(s) == None by {
      assert !IsDigit(s[0]);
    }
    assert ParseUnsigned(s) == None;
    assert s[0] in s && s[0] != '-' && s[0] != '+';
  }
}
