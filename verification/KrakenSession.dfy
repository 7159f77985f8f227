/** Kraken's message parser: the mutex-held book, changed in place by snapshots and updates. */
module KrakenSession {
  import opened Collections
  import opened Model
  import opened Numerals
  import opened Sorting
  import opened KrakenSide

  // ---------------------------------------------------------------- messages

  /**
   The library functions the parser calls: `str::parse::<f64>` and `crc32fast::hash`. Everything
   below holds for any two functions; `ParseNumber` is the first without rounding.
   */
  datatype Library = Library(parse: string -> Option<real>, crc: string -> nat)

  /** A level on the wire: the raw JSON text of its price and quantity. */
  datatype WireLevel = WireLevel(price: string, qty: string) {
    function ToLevel(lib: Library): Option<KrakenLevel> {
      var p, q := lib.parse(price), lib.parse(qty);
      if p.None? || q.None? then None else Some(KrakenLevel(p.value, price, q.value, qty))
    }
  }

  datatype BookData = BookData(bids: seq<WireLevel>, asks: seq<WireLevel>, checksum: nat)

  /** A text message: no book payload, an undecodable one, or a decoded one. */
  datatype Message =
    | OtherChannel
    | Undecodable
    | BookMessage(kind: string, data: seq<BookData>)

  /** A message with the instants between which it was parsed. */
  datatype Delivery = Delivery(message: Message, startedAt: real, parsedAt: real)

  /** The levels before the first that fails to parse. */
  function ParsedPrefix(lib: Library, wires: seq<WireLevel>): seq<KrakenLevel> {
    if wires == [] || wires[0].ToLevel(lib).None? then []
    else [wires[0].ToLevel(lib).value] + ParsedPrefix(lib, wires[1..])
  }

  predicate AllParse(lib: Library, wires: seq<WireLevel>) {
    forall i :: 0 <= i < |wires| ==> wires[i].ToLevel(lib).Some?
  }

  predicate FullyParses(lib: Library, data: BookData) {
    AllParse(lib, data.bids) && AllParse(lib, data.asks)
  }

  // ---------------------------------------------------------------- what the book operations compute

  /** The value of a held book. */
  datatype Sides = Sides(bids: seq<KrakenLevel>, asks: seq<KrakenLevel>)

  function SnapshotSide(lib: Library, wires: seq<WireLevel>, ascending: bool): seq<KrakenLevel> {
    Cut(SortBy(ParsedPrefix(lib, wires), SideOrder(ascending)))
  }

  function SnapshotSides(lib: Library, data: BookData): Option<Sides> {
    if FullyParses(lib, data) then Some(Sides(SnapshotSide(lib, data.bids, false), SnapshotSide(lib, data.asks, true))) else None
  }

  /** The changes an update makes to the asks: none unless all its bids parsed. */
  function AskChanges(lib: Library, data: BookData): seq<KrakenLevel> {
    if AllParse(lib, data.bids) then ParsedPrefix(lib, data.asks) else []
  }

  function UpdatedSides(lib: Library, book: Sides, data: BookData): Sides {
    var bids := UpsertAll(book.bids, ParsedPrefix(lib, data.bids), false);
    var asks := UpsertAll(book.asks, AskChanges(lib, data), true);
    if FullyParses(lib, data) then Sides(Cut(bids), Cut(asks)) else Sides(bids, asks)
  }

  function LevelText(l: KrakenLevel): string {
    StripForChecksum(l.priceRaw) + StripForChecksum(l.qtyRaw)
  }

  function SideText(levels: seq<KrakenLevel>): string {
    if levels == [] then [] else SideText(levels[..|levels| - 1]) + LevelText(levels[|levels| - 1])
  }

  lemma SideTextTo(levels: seq<KrakenLevel>, i: nat)
    requires i < |levels|
    ensures SideText(levels[..i + 1]) == SideText(levels[..i]) + LevelText(levels[i])
  {
    assert levels[..i + 1][..i] == levels[..i];
  }

  /** The bytes the checksum is taken of: at most ten asks, then at most ten bids. */
  function ChecksumText(book: Sides): string {
    SideText(Cut(book.asks)) + SideText(Cut(book.bids))
  }

  function ToQuote(l: KrakenLevel): Quote {
    Quote(l.price, l.qty)
  }

  function ToQuotes(levels: seq<KrakenLevel>): seq<Quote> {
    Map(levels, ToQuote)
  }

  function ModelBook(book: Sides, startedAt: real, parsedAt: real): Book {
    Book(ToQuotes(book.bids), ToQuotes(book.asks), 0, startedAt, parsedAt)
  }

  /** A level's numbers are what its texts say. */
  predicate LevelCoherent(lib: Library, l: KrakenLevel) {
    lib.parse(l.priceRaw) == Some(l.price) && lib.parse(l.qtyRaw) == Some(l.qty)
  }

  predicate SideCoherent(lib: Library, levels: seq<KrakenLevel>) {
    forall l :: l in levels ==> LevelCoherent(lib, l)
  }

  predicate SidesCoherent(lib: Library, book: Sides) {
    SideCoherent(lib, book.bids) && SideCoherent(lib, book.asks)
  }

  lemma ParsedPrefixFrom(lib: Library, wires: seq<WireLevel>, i: nat)
    requires i < |wires|
    ensures ParsedPrefix(lib, wires[i..])
         == if wires[i].ToLevel(lib).None? then [] else [wires[i].ToLevel(lib).value] + ParsedPrefix(lib, wires[i + 1..])
  {
    assert wires[i..][0] == wires[i] && wires[i..][1..] == wires[i + 1..];
  }

  lemma AllParseTo(lib: Library, wires: seq<WireLevel>, i: nat)
    requires i < |wires| && AllParse(lib, wires[..i])
    ensures if wires[i].ToLevel(lib).Some? then AllParse(lib, wires[..i + 1]) else !AllParse(lib, wires)
  {
    assert forall k :: 0 <= k < i ==> wires[..i][k] == wires[k] == wires[..i + 1][k];
  }

  lemma {:induction false} ParsedPrefixCoherent(lib: Library, wires: seq<WireLevel>)
    ensures SideCoherent(lib, ParsedPrefix(lib, wires))
  {
    if wires != [] && wires[0].ToLevel(lib).Some? {
      ParsedPrefixCoherent(lib, wires[1..]);
    }
  }

  lemma {:induction false} UpsertAllCoherent(lib: Library, levels: seq<KrakenLevel>, changes: seq<KrakenLevel>, ascending: bool)
    requires SideCoherent(lib, levels) && SideCoherent(lib, changes)
    ensures SideCoherent(lib, UpsertAll(levels, changes, ascending))
    decreases changes
  {
    if changes != [] {
      var kept := Filter(levels, NotAtPrice(changes[0].price));
      FilterElements(levels, NotAtPrice(changes[0].price));
      SortElements(kept + Meaning(changes[0]), SideOrder(ascending));
      UpsertAllCoherent(lib, Upserted(levels, changes[0], ascending), changes[1..], ascending);
    }
  }

  lemma UpdatedSidesCoherent(lib: Library, book: Sides, data: BookData)
    requires SidesCoherent(lib, book)
    ensures SidesCoherent(lib, UpdatedSides(lib, book, data))
  {
    ParsedPrefixCoherent(lib, data.bids);
    ParsedPrefixCoherent(lib, data.asks);
    UpsertAllCoherent(lib, book.bids, ParsedPrefix(lib, data.bids), false);
    UpsertAllCoherent(lib, book.asks, AskChanges(lib, data), true);
  }

  lemma SnapshotSidesCoherent(lib: Library, data: BookData)
    requires SnapshotSides(lib, data).Some?
    ensures SidesCoherent(lib, SnapshotSides(lib, data).value)
  {
    ParsedPrefixCoherent(lib, data.bids);
    ParsedPrefixCoherent(lib, data.asks);
    SortElements(ParsedPrefix(lib, data.bids), SideOrder(false));
    SortElements(ParsedPrefix(lib, data.asks), SideOrder(true));
  }

  // ---------------------------------------------------------------- the book

  class KrakenBook {
    var bids: seq<KrakenLevel>
    var asks: seq<KrakenLevel>

    function Value(): Sides
      reads this
    {
      Sides(bids, asks)
    }

    constructor ()
      ensures Value() == Sides([], [])
    {
      bids, asks := [], [];
    }

    /** Pushes level after level, giving up at the first that fails, then sorts and truncates. */
    static method FromSnapshot(lib: Library, data: BookData) returns (book: KrakenBook?)
      ensures book == null <==> SnapshotSides(lib, data).None?
      ensures book != null ==> fresh(book) && SnapshotSides(lib, data) == Some(book.Value())
    {
      var b := new KrakenBook();
      var ok: bool;
      b.bids, ok := PushWires(lib, data.bids);
      if !ok {
        return null;
      }
      b.asks, ok := PushWires(lib, data.asks);
      if !ok {
        return null;
      }
      b.bids := SortBy(b.bids, SideOrder(false));
      b.asks := SortBy(b.asks, SideOrder(true));
      b.bids := Truncate(b.bids, DEPTH);
      b.asks := Truncate(b.asks, DEPTH);
      return b;
    }

    static method PushWires(lib: Library, wires: seq<WireLevel>) returns (levels: seq<KrakenLevel>, ok: bool)
      ensures levels == ParsedPrefix(lib, wires)
      ensures ok <==> AllParse(lib, wires)
    {
      levels := [];
      for i := 0 to |wires|
        invariant AllParse(lib, wires[..i])
        invariant ParsedPrefix(lib, wires) == levels + ParsedPrefix(lib, wires[i..])
      {
        var level := wires[i].ToLevel(lib);
        ParsedPrefixFrom(lib, wires, i);
        AllParseTo(lib, wires, i);
        if level.None? {
          return levels, false;
        }
        Associative(levels, [level.value], ParsedPrefix(lib, wires[i + 1..]));
        levels := levels + [level.value];
      }
      assert wires[..|wires|] == wires;
      return levels, true;
    }

    /** Upserts level after level in place; a level that fails leaves the earlier ones applied. */
    method ApplyUpdate(lib: Library, data: BookData) returns (ok: bool)
      modifies this
      ensures Value() == UpdatedSides(lib, old(Value()), data)
      ensures ok <==> FullyParses(lib, data)
    {
      bids, ok := UpsertWires(lib, bids, data.bids, false);
      if !ok {
        return;
      }
      asks, ok := UpsertWires(lib, asks, data.asks, true);
      if !ok {
        return;
      }
      bids := Truncate(bids, DEPTH);
      asks := Truncate(asks, DEPTH);
    }

    static method UpsertWires(lib: Library, levels: seq<KrakenLevel>, wires: seq<WireLevel>, ascending: bool)
      returns (updated: seq<KrakenLevel>, ok: bool)
      ensures updated == UpsertAll(levels, ParsedPrefix(lib, wires), ascending)
      ensures ok <==> AllParse(lib, wires)
    {
      updated := levels;
      ghost var goal := UpsertAll(levels, ParsedPrefix(lib, wires), ascending);
      for i := 0 to |wires|
        invariant AllParse(lib, wires[..i])
        invariant goal == UpsertAll(updated, ParsedPrefix(lib, wires[i..]), ascending)
      {
        var level := wires[i].ToLevel(lib);
        ParsedPrefixFrom(lib, wires, i);
        AllParseTo(lib, wires, i);
        if level.None? {
          return updated, false;
        }
        UpsertAllCons(updated, level.value, ParsedPrefix(lib, wires[i + 1..]), ascending);
        updated := Upsert(updated, level.value, ascending);
      }
      assert wires[..|wires|] == wires;
      return updated, true;
    }

    /** Digits of at most ten asks, then bids, pushed onto one buffer and hashed. */
    method ComputeChecksum(lib: Library) returns (sum: nat)
      ensures sum == lib.crc(ChecksumText(Value()))
    {
      var buf := "";
      buf := PushDigits(buf, Truncate(asks, DEPTH));
      buf := PushDigits(buf, Truncate(bids, DEPTH));
      assert "" + SideText(Cut(asks)) == SideText(Cut(asks));
      sum := lib.crc(buf);
    }

    static method PushDigits(start: string, levels: seq<KrakenLevel>) returns (buf: string)
      ensures buf == start + SideText(levels)
    {
      buf := start;
      for i := 0 to |levels|
        invariant buf == start + SideText(levels[..i])
      {
        SideTextTo(levels, i);
        Associative(start + SideText(levels[..i]), StripForChecksum(levels[i].priceRaw), StripForChecksum(levels[i].qtyRaw));
        Associative(start, SideText(levels[..i]), LevelText(levels[i]));
        buf := buf + StripForChecksum(levels[i].priceRaw);
        buf := buf + StripForChecksum(levels[i].qtyRaw);
      }
      assert levels[..|levels|] == levels;
    }

    /** Parses every text again; the panics of `expect` are unreachable on a coherent book. */
    method ToModelBook(lib: Library, startedAt: real, parsedAt: real) returns (book: Book)
      requires SidesCoherent(lib, Value())
      ensures book == ModelBook(Value(), startedAt, parsedAt)
    {
      var bidQuotes := ToPairs(lib, bids);
      var askQuotes := ToPairs(lib, asks);
      book := Book(bidQuotes, askQuotes, 0, startedAt, parsedAt);
    }

    static method ToPairs(lib: Library, levels: seq<KrakenLevel>) returns (quotes: seq<Quote>)
      requires SideCoherent(lib, levels)
      ensures quotes == ToQuotes(levels)
    {
      quotes := [];
      for i := 0 to |levels|
        invariant quotes == ToQuotes(levels)[..i]
      {
        var price := lib.parse(levels[i].priceRaw);
        var qty := lib.parse(levels[i].qtyRaw);
        assert LevelCoherent(lib, levels[i]);
        quotes := quotes + [Quote(price.value, qty.value)];
      }
    }
  }

  // ---------------------------------------------------------------- the session

  datatype Outcome = Outcome(held: Option<Sides>, published: Option<Book>)

  /** The held book and what is returned, after one message. */
  function Step(lib: Library, held: Option<Sides>, d: Delivery): Outcome {
    if !d.message.BookMessage? || d.message.data == [] then Outcome(held, None)
    else
      var data := d.message.data[0];
      if d.message.kind == "snapshot" then
        var book := SnapshotSides(lib, data);
        if book.None? then Outcome(held, None)
        else if lib.crc(ChecksumText(book.value)) != data.checksum then Outcome(None, None)
        else Outcome(book, Some(ModelBook(book.value, d.startedAt, d.parsedAt)))
      else if d.message.kind == "update" then
        if held.None? then Outcome(None, None)
        else
          var book := UpdatedSides(lib, held.value, data);
          if !FullyParses(lib, data) then Outcome(Some(book), None)
          else if lib.crc(ChecksumText(book)) != data.checksum then Outcome(None, None)
          else Outcome(Some(book), Some(ModelBook(book, d.startedAt, d.parsedAt)))
      else Outcome(held, None)
  }

  class Kraken {
    const lib: Library
    var book: KrakenBook?

    ghost function Held(): Option<Sides>
      reads this, book
    {
      if book == null then None else Some(book.Value())
    }

    ghost predicate Valid()
      reads this, book
    {
      book != null ==> SidesCoherent(lib, book.Value())
    }

    constructor (lib: Library)
      ensures Valid() && Held() == None && this.lib == lib
    {
      this.lib := lib;
      book := null;
    }

    method Parse(d: Delivery) returns (published: Option<Book>)
      requires Valid()
      modifies this, book
      ensures Valid() && (book == old(book) || book == null || fresh(book))
      ensures Outcome(Held(), published) == Step(lib, old(Held()), d)
    {
      match d.message
      case OtherChannel => published := None;
      case Undecodable => published := None;
      case BookMessage(kind, data) =>
        if data == [] {
          return None;
        }
        assert [data[0]] + data[1..] == data;
        published := ParseBookMessage(kind, data[0], d.startedAt, d.parsedAt);
        assert Delivery(BookMessage(kind, [data[0]] + data[1..]), d.startedAt, d.parsedAt) == d;
    }

    method ParseBookMessage(kind: string, data: BookData, startedAt: real, parsedAt: real) returns (published: Option<Book>)
      requires Valid()
      modifies this, book
      ensures Valid() && (book == old(book) || book == null || fresh(book))
      ensures forall rest ::
          Outcome(Held(), published) == Step(lib, old(Held()), Delivery(BookMessage(kind, [data] + rest), startedAt, parsedAt))
    {
      if kind == "snapshot" {
        var fromSnapshot := KrakenBook.FromSnapshot(lib, data);
        if fromSnapshot == null {
          return None;
        }
        SnapshotSidesCoherent(lib, data);
        var sum := fromSnapshot.ComputeChecksum(lib);
        if sum != data.checksum {
          book := null;
          return None;
        }
        var model := fromSnapshot.ToModelBook(lib, startedAt, parsedAt);
        book := fromSnapshot;
        return Some(model);
      } else if kind == "update" {
        if book == null {
          return None;
        }
        UpdatedSidesCoherent(lib, book.Value(), data);
        var ok := book.ApplyUpdate(lib, data);
        if !ok {
          return None;
        }
        var sum := book.ComputeChecksum(lib);
        if sum != data.checksum {
          book := null;
          return None;
        }
        var model := book.ToModelBook(lib, startedAt, parsedAt);
        return Some(model);
      } else {
        return None;
      }
    }
  }
}
