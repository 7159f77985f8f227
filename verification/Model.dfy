/**
 The types every component exchanges. Prices, amounts and instants are exact reals: `total_cmp`
 on finite, non-negative-zero doubles is the order of the numbers they denote.
 */
module Model {
  datatype Venue = Binance | Bitstamp | Kraken {
    /** The label a level carries on the wire. */
    function Name(): string {
      match this
      case Binance => "binance"
      case Bitstamp => "bitstamp"
      case Kraken => "kraken"
    }

    /** Tokens the reconnect bucket holds when full. */
    function ConnectCapacity(): real {
      5.0
    }

    /** Tokens per second the reconnect bucket refills. */
    function ConnectRate(): real {
      if Binance? then 1.0 else 0.5
    }

    /** Seconds of silence after which the venue is left out of the merge. */
    function StalenessThreshold(): real {
      match this
      case Binance => 1.5
      case Bitstamp => 8.0
      case Kraken => 12.0
    }
  }

  lemma NameInjective(v: Venue, w: Venue)
    ensures v.Name() == w.Name() <==> v == w
  {
    assert "binance"[1] != "bitstamp"[2];
    assert |"binance"| == 7 && |"bitstamp"| == 8 && |"kraken"| == 6;
  }

  /** One `(Price, Amount)` pair of a venue's book. */
  datatype Quote = Quote(price: real, amount: real)

  /** A venue's book as its parser delivered it. */
  datatype Book = Book(
    bids: seq<Quote>,
    asks: seq<Quote>,
    lastUpdateId: nat,
    parseStartedAt: real,
    parsedAt: real)

  /** A published level, tagged with its venue. */
  datatype Level = Level(exchange: string, price: real, amount: real)

  datatype Summary = Summary(spread: real, bids: seq<Level>, asks: seq<Level>)

  /** `Instant::duration_since`, which saturates at zero. */
  function Elapsed(later: real, earlier: real): (d: real)
    ensures d >= 0.0
  {
    if later >= earlier then later - earlier else 0.0
  }
}
