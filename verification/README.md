# Verified model of the order-book service

A Dafny model of the service that merges the order books of Binance, Bitstamp and Kraken into one
streamed summary, with proofs of what it keeps true over every message sequence, every run of the
reconnect loop and every interleaving of its tasks. `dafny verify dfyconfig.toml` checks all of it.

| file | models |
|---|---|
| `Collections.dfy`, `Sorting.dfy` | options, filters, truncation; the library's stable sort |
| `Model.dfy` | venues and their constants, books, levels, summaries |
| `KrakenSide.dfy` | one side of Kraken's held book: upsert and truncate; a sorted side is determined by what it holds at each price |
| `KrakenSimulation.dfy` | refinement of a price map; the held side as a cache of the venue's full side |
| `Numerals.dfy` | decimal text and the checksum's digit strings |
| `KrakenSession.dfy`, `KrakenHistory.dfy` | the parser with its held book, and its whole sessions |
| `KrakenGrowth.dfy` | how long the held sides are, at any moment of any session |
| `KrakenWire.dfy` | what each kind of message reads, hashes, leaves held and returns |
| `Merge.dfy`, `MergeTheorems.dfy`, `MergeMonotone.dfy`, `KrakenDepth.dfy` | the cursor merge and its meaning |
| `MergeOrder.dfy` | the merge of lists in any order, and exactly when it comes out in order |
| `MergeSummary.dfy` | what a whole summary says of the books it was merged from |
| `MergeDepartures.dfy` | the merge when venues leave: exactly when no surviving rank gets better |
| `Feed.dfy`, `FeedBounds.dfy`, `FeedWindow.dfy` | backoff, token bucket and reconnect loop; amortised bounds; least times and fullest windows |
| `Aggregator.dfy`, `AggregatorHistory.dfy` | freshness, dedup, publication, counters, the select loop |
| `Startup.dfy` | the first reconnect cycle against the aggregator's grace period |
| `Pipeline.dfy`, `Progress.dfy`, `EndToEnd.dfy` | feeds, bounded queue, aggregator and client streams in every interleaving: safety, when each move must act, and Kraken's sessions through to the clients |
| `Terminal.dfy` | the client's coloured cell and the scanner that skips colour codes |

Prices, amounts, tokens and instants are exact reals. `str::parse::<f64>` and `crc32fast::hash` are
arbitrary functions (`Library`): the session theorems hold for any two; `Numerals.ParseNumber` is the
first without rounding. Jitter is any factor in [0.5, 1.5), sleeps take at least as long as asked,
connection lifetimes and clock readings are inputs.

Where the code and its own prose part, the model follows the code:

- `src/exchange/kraken.rs:5-8` warns that applying the same update twice double-applies it. It does not:
  `UpdateIdempotent` and `RepeatedUpdate`.
- `src/aggregator.rs:19-21` says 60 seconds of grace cover a backoff cycle of 61. They do exactly when the
  cycle's connections, jittered delays and late wakings come to no more than 60: `BackoffOutlastsGrace`. With
  one jitter throughout, immediate failures stay within it up to 60/61 and not beyond: `EitherWay`.
- `src/feed.rs:56-59` presents the token bucket as the ceiling on attempts. As composed it never delays
  one: `BackoffDominatesBucket`. The ceiling that acts is the backoff's, 36 in five minutes: `AttemptsPerWindow`.
  On its own Binance's bucket would let 305 through, where 300 are documented: `BucketAloneExceedsLimit`.
- "Ten levels a side" and "an update applies wholly or not at all" are true of returned books. Of the held
  one they hold exactly under the conditions of `HeldWithinDepthIff` and `FailedUpdateHarmlessIff`, which
  `ElevenBidsHeld` shows can fail.
- `src/merge.rs:45-47` promises levels best first. A list that is not comes out as it stands (`BestAskSecond`).
  A merge is in order exactly when the stable sort of the lists, each level raised to the worst before it,
  takes none of them past its first descent (`InOrderIff`), and the same condition on the survivors' lists
  decides whether a departing venue can improve a rank (`NoDepartureImprovesIff`).

## Model

| member | source | states |
|---|---|---|
| KrakenSide.Upsert | src/exchange/kraken.rs:126-136 | one upsert leaves a sorted side that holds the change (nothing for a zero quantity) at its own price and what it held before at every other |
| KrakenSide.UpsertAllAt | src/exchange/kraken.rs:84-92 | after a list of changes each price holds the last change made to it, or what was there |
| KrakenSide.LastChangeIsLast | src/exchange/kraken.rs:85-92 | the last change to a price is the one with no later change to that price |
| KrakenSide.SameAtSameSide | src/exchange/kraken.rs:131-135 | sorted sides that hold the same at every price are equal, so the two facts above determine the result |
| KrakenSide.UpdateIdempotent | src/exchange/kraken.rs:84-96 | from any sorted side, an update applied and truncated twice equals once, although truncation drops levels in between |
| KrakenSide.UpdateOrderIrrelevant | src/exchange/kraken.rs:84-96 | changes to distinct prices may be reordered at will |
| KrakenSimulation.UpdateRefinesMap | src/exchange/kraken.rs:84-96 | from a strictly sorted side an update yields the best ten of its price map with all changes made |
| KrakenSimulation.StrictSidesAreListings | src/exchange/kraken.rs:58-63 | exactly the strictly sorted sides are sorted listings of a price map |
| KrakenSimulation.SimulatesIffAnnounced | src/exchange/kraken.rs:84-96 | for any two books of the venue and any changes, an update turns its old true top ten into the new one if and only if at each price of the new ten it leaves what rests there and at any other nothing that is not beneath ten levels |
| KrakenSimulation.TrueThroughoutIffAnnounced | src/exchange/kraken.rs:84-96 | over a whole run the held side is the true top ten after every move if and only if every move was so announced |
| KrakenSimulation.HeldSideSimulates | src/exchange/kraken.rs:84-96 | at the end of any such run the held side is still the venue's true top ten |
| KrakenSimulation.SimulatesIffEntrantsNamed | src/exchange/kraken.rs:93-94 | when the venue changes as the update says, the cache stays right if and only if every new entrant to the top ten is named |
| KrakenSimulation.UntruncatedAgreesToOldTenth | src/exchange/kraken.rs:84-92 | with no such assumption the side before truncation agrees with the full map at every price as good as the old tenth |
| KrakenSimulation.RunAgreesToTenths | src/exchange/kraken.rs:84-96 | and over any run the held and the true side agree at every price as good as all the tenth prices held so far |
| Numerals.StripIsCanonicalNumeral | src/exchange/kraken.rs:141-149 | the checksum digits of decimal text are the canonical numeral of its dot-free integer |
| Numerals.StripEqualIff | src/exchange/kraken.rs:141-149 | two decimal texts have the same checksum digits exactly when their dot-free integers are equal |
| Numerals.StripDeterminesValue | src/exchange/kraken.rs:138-149 | the checksum digits and the number of decimals give back the parsed value |
| Numerals.StripIdempotent | src/exchange/kraken.rs:141-149 | stripping twice is stripping once, for any text |
| Numerals.StripKeeps | src/exchange/kraken.rs:141-149 | of any text the checksum keeps what is left without dots behind its leading zeros, or a single zero if nothing is |
| KrakenSession.KrakenBook.FromSnapshot | src/exchange/kraken.rs:67-80 | sorts and truncates both sides without merging duplicates or dropping zeros, or gives nothing when any level fails to parse |
| KrakenSession.KrakenBook.ApplyUpdate | src/exchange/kraken.rs:84-96 | applies every change before the first failure in place, asks only if all bids parsed, truncating only if all parsed |
| KrakenSession.KrakenBook.ComputeChecksum | src/exchange/kraken.rs:153-164 | hashes the stripped digits of at most ten asks and then ten bids |
| KrakenSession.KrakenBook.ToModelBook | src/exchange/kraken.rs:101-121 | on a book whose numbers are the parses of their texts, re-parsing never fails and gives those numbers |
| KrakenSession.Kraken.ParseBookMessage | src/exchange/kraken.rs:291-332 | the held book and the returned book after a snapshot, an update or another kind, on every path |
| KrakenSession.Kraken.Parse | src/exchange/kraken.rs:252-287 | messages of other channels and undecodable ones return nothing and leave the book |
| KrakenWire.ReadToFirstFailure | src/exchange/kraken.rs:69-74 | levels are read in order up to the first with a text that is no number, price from the price text and quantity from the quantity text |
| KrakenWire.ChecksumAskFirst | src/exchange/kraken.rs:153-158 | with at most ten asks the text begins with the best ask's stripped price digits and then its quantity digits |
| KrakenWire.ChecksumBidFirst | src/exchange/kraken.rs:159-163 | without asks it begins with the best bid's in the same way |
| KrakenWire.ChecksumTopTen | src/exchange/kraken.rs:155-159 | levels behind the tenth of their side change nothing; with `ChecksumOfNothing` the four laws fix the whole text |
| KrakenWire.ReturnsIff | src/exchange/kraken.rs:301-324 | a book comes back exactly from a readable snapshot, or readable update with a book held, whose checksum is right |
| KrakenWire.HeldLostIff | src/exchange/kraken.rs:304-321 | a held book is lost exactly to such a message with a wrong checksum |
| KrakenWire.HeldGainedIff | src/exchange/kraken.rs:303-311 | with none held, one comes exactly from a snapshot that is returned |
| KrakenWire.UnreadableKeepsHeld | src/exchange/kraken.rs:302-303 | a snapshot that cannot be read, like any message without a change, returns nothing and leaves what is held |
| KrakenWire.SnapshotSideHolds | src/exchange/kraken.rs:67-80 | a snapshot's side is sorted, has ten levels or all there are, and holds at each price what the wire has there, zeros and repetitions included, unless ten levels leave no room |
| KrakenWire.SnapshotIsHeld | src/exchange/kraken.rs:303-311 | an accepted snapshot's own bids and asks become the held ones |
| KrakenWire.CompleteUpdateRefreshes | src/exchange/kraken.rs:84-96 | an accepted update leaves on each side the first ten of its untouched levels and the side's own last words, sorted |
| KrakenWire.FailedUpdateChanges | src/exchange/kraken.rs:84-92 | an update failing at a bid has made the bid changes before it and left the asks alone; one failing at an ask has made all bid changes and the ask changes before it; nothing is cut |
| KrakenWire.ReturnedBookReadsHeld | src/exchange/kraken.rs:98-121 | a returned book has rank for rank the parsed price and quantity texts of the held one, and the message's own instants |
| KrakenHistory.ReachableHeldIsGood | src/exchange/kraken.rs:98-121 | in every reachable book each number is the parse of its text and both sides are sorted |
| KrakenHistory.PublishedBookIsSound | src/exchange/kraken.rs:291-332 | every returned book is the held one, sorted, at most ten levels a side, and matches its message's checksum |
| KrakenHistory.MismatchClears | src/exchange/kraken.rs:304-321 | a checksum mismatch returns nothing and drops the held book |
| KrakenHistory.SilentUntilSnapshot | src/exchange/kraken.rs:313-316 | with no book held, whatever is returned later comes at or after an accepted snapshot |
| KrakenHistory.HeldIsReplay | src/exchange/kraken.rs:291-332 | every held book goes back to an accepted snapshot and is the last one with all later changes replayed, prefixes of failed updates included |
| KrakenHistory.HeldLevelIsLastWord | src/exchange/kraken.rs:82-96 | every held level is the last change to its price since that snapshot, or the snapshot's own level if there was none |
| KrakenHistory.SnapshotRefinesMap | src/exchange/kraken.rs:67-80 | a snapshot with distinct prices becomes the best ten of its own price map |
| KrakenHistory.RepeatedUpdate | src/exchange/kraken.rs:459-476 | any update repeated, failed ones included, is accepted exactly when the first was, returns the same levels and changes nothing |
| KrakenHistory.FailedUpdateHarmlessIff | src/exchange/kraken.rs:84-92 | an update failing part-way leaves the held book alone if and only if the changes before the failure were already held |
| KrakenGrowth.UpsertAllIsSort | src/exchange/kraken.rs:84-92 | a sorted side after any changes is its levels at prices not named and the last change to each named price unless that is zero, sorted |
| KrakenGrowth.FailedUpdateWithinDepthIff | src/exchange/kraken.rs:84-96 | an update failing part-way leaves a side within ten levels if and only if its untouched levels and the last non-zero changes before the failure are at most ten, for bids and for asks |
| KrakenGrowth.HeldWithinDepthIff | src/exchange/kraken.rs:84-96 | at any moment of any session a held side is within ten levels if and only if the last returned book's untouched levels and the last non-zero changes since are at most ten |
| KrakenGrowth.EleventhBidHeld | src/exchange/kraken.rs:84-96 | after any snapshot of ten bids, a bid at another price followed by one that does not parse leaves eleven and returns nothing |
| KrakenGrowth.ElevenBidsHeld | src/exchange/kraken.rs:84-96 | so with exact decimal parsing and any checksum a session of two messages holds eleven bids, after ten of distinct prices |
| KrakenHistory.HonestSessionPublishesTop | src/exchange/kraken.rs:291-332 | with a venue that announces its moves and sends its true checksum, through any number of fresh snapshots, every held and returned book from the first snapshot on is its true top ten, and before it there is none |
| KrakenDepth.TopTenSuffices | src/merge.rs:56-75 | merging the true top ten gives the summary of Kraken's full book |
| KrakenDepth.HonestSessionMergesInFull | src/exchange/kraken.rs:291-332 | every book an honest session returns merges as the venue's full book would |
| MergeMonotone.BetterMeans | src/merge.rs:26-34 | price direction by side, larger amount among equal prices, equal only on equal levels |
| Merge.FindBest | src/merge.rs:58-62 | finds a front level no other beats, strictly better than every earlier venue's, or that all lists are used up |
| Merge.TakeBest | src/merge.rs:56-76 | the cursor loop computes the repeated first-best choice |
| Merge.MergeBooks | src/merge.rs:82-95 | nothing without both sides, else both top tens and the spread of their fronts |
| MergeTheorems.MergeRefinesStableSort | src/merge.rs:48-77 | for lists sorted under the two-key order the result is the first ten of the stable sort of all lists in venue order |
| MergeTheorems.StrictlyPricedIsBetterSorted | src/model.rs:91-96 | a list with distinct prices in order is sorted under the two-key order, which is all the refinement above asks of it |
| MergeMonotone.MergePricesRefineSort | src/merge.rs:48-77 | for lists sorted by price only the prices are the first ten of all prices sorted |
| MergeMonotone.MergeKeepsPriceOrder | src/merge.rs:45-47 | so the result is sorted by price |
| MergeTheorems.MergeLength | src/merge.rs:56-75 | with no sortedness, the result has as many levels as the bound or the lists allow |
| MergeTheorems.MergeTakesPrefixes | src/merge.rs:51-76 | with no sortedness, each venue's levels in the result are a prefix of its list |
| MergeTheorems.MergeInvents | src/merge.rs:66-72 | every level in the result is a level of some list under that venue's label |
| MergeMonotone.DepthIndependence | src/merge.rs:56-75 | levels behind the tenth of their own list never matter, sorted or not |
| MergeMonotone.BooksMergeAsSort | src/merge.rs:48-77 | for sorted books the result is the first n of the stable sort of Binance's levels, then Bitstamp's, then Kraken's |
| MergeOrder.MergeFollowsRaisedSort | src/merge.rs:48-77 | for lists of any order, the result takes its levels from the venues in the order of the stable sort of all lists with every level raised to the worst before it |
| MergeOrder.EachVenuesPart | src/merge.rs:51-76 | and each venue's part of the result is the prefix of its list of the length that sort gives it |
| MergeOrder.InOrderIff | src/merge.rs:45-47 | the result is in order, under the two-key or the price order, if and only if that sort takes from no list more levels than come before its first descent |
| MergeOrder.BestAskSecond | src/merge.rs:45-47 | any venue whose asks stand 2, 1 is published, under its own name, with the best ask second |
| MergeSummary.NothingToPublishIff | src/merge.rs:83-86 | no summary exactly when one side has no level at any venue |
| MergeSummary.SummaryLength | src/merge.rs:79-94 | otherwise each side of the summary has ten levels, or all there are |
| MergeSummary.SummaryIsStableSort | src/merge.rs:79-94 | for sorted books each side of the summary is the first ten of all its levels stably sorted in venue order |
| MergeSummary.SummaryRows | src/merge.rs:66-72 | for any books each venue's rows of the summary are the first of its list with their own price and amount, as many and in the places the raised sort gives |
| MergeSummary.SpreadIsNearestTick | src/merge.rs:90-92 | the spread is the whole number of ticks nearest to best ask less best bid, halves away from zero |
| MergeDepartures.NoDepartureImprovesIff | src/merge.rs:48-77 | for any survivors with lists of any order, leaving venues out improves no surviving rank if and only if that sort takes none of the survivors' lists past its first descent |
| MergeDepartures.LoneSurvivorIff | src/merge.rs:56-75 | with one survivor that is the price order of its first n levels |
| MergeDepartures.DepartureMayImprove | src/merge.rs:56-75 | any survivors' rank can be pushed one back by a venue that then leaves, so one better than the rank before it can improve |
| MergeDepartures.FewerVenuesNoBetter | src/merge.rs:48-77 | leaving out venues with any lists makes no surviving rank better under the two-key order, if the survivors' lists are sorted under it |
| MergeDepartures.FewerVenuesNoBetterPrice | src/merge.rs:48-77 | the same for prices when the survivors' lists are sorted by price only |
| MergeMonotone.FewerVenuesNeverNarrowSpread | src/merge.rs:86-94 | for any lists, if fewer venues still publish then all do, and with no wider spread |
| MergeMonotone.SpreadExactOnTicks | src/merge.rs:90-92 | on whole 8-decimal ticks the rounding changes nothing |
| MergeMonotone.CrossingNeedsTwoVenues | src/merge.rs:88-92 | if books that are not crossed themselves merge to a best ask below the best bid, by however little, the two are of different venues |
| MergeMonotone.NegativeSpreadNeedsTwoVenues | src/merge.rs:88-92 | so it is for every negative published spread |
| Feed.Backoff.NextDelay | src/feed.rs:32-37 | the capped power of two for the current attempt, and the saturating advance |
| Feed.Backoff.ResetIfStable | src/feed.rs:49-53 | resets exactly when the connection was held for more than the stability window |
| Feed.TokenBucket.Refill | src/feed.rs:78-82 | elapsed time times rate is added, up to the capacity |
| Feed.TokenBucket.Take | src/feed.rs:85-96 | terminates after at most one sleep with exactly one token spent |
| Feed.RunFeed | src/feed.rs:102-133 | the loop's trace of attempts and spends for any given lifetimes, jitter and lateness |
| FeedBounds.Delays | src/feed.rs:21-37 | the delays are 1, 2, 4, 8, 16 and then 30 for ever |
| FeedBounds.EveryRun | src/feed.rs:102-133 | in every run the clock is the sum of connections, jittered delays and late wakings, each delay by the attempts since the last stable connection |
| FeedBounds.EveryCycle | src/feed.rs:111-132 | so each attempt and each spend of a token has its instant in closed form |
| FeedBounds.SleepsNoLonger | src/feed.rs:91-94 | a sleep for a token ends no later than the first moment there is one |
| FeedBounds.CyclesTakeTime | src/feed.rs:111-132 | any cycles of any run cost 9.1 seconds each up to a potential between -30 and 0 |
| FeedBounds.AttemptsAreSpread | src/feed.rs:111-132 | so n full cycles take at least 9.1 n - 30 seconds |
| FeedBounds.AmortisedRateIsExact | src/feed.rs:32-53 | every venue's feed has runs, from its start on, whose average comes as close to 9.1 seconds as wished |
| FeedWindow.CyclesTakeMinTime | src/feed.rs:111-132 | n cycles from any attempt count take at least the minimum over all choices of failing at once or barely getting stable |
| FeedWindow.MinTimeIsApproached | src/feed.rs:111-132 | and some possible run comes within any eps of that minimum |
| FeedWindow.AttemptsPerWindow | src/feed.rs:111-132 | no 300-second window of any run holds more than 36 connection attempts |
| FeedWindow.ThirtySixAttempts | src/feed.rs:111-132 | and every venue's feed has a run with 36 in its first 300 seconds |
| FeedBounds.BackoffDominatesBucket | src/feed.rs:102-133 | with every venue's connect rate and in every run at least 4.5 tokens are there before each spend and acquiring one never sleeps |
| FeedBounds.SpendsPerWindow | src/feed.rs:67-96 | used on its own the bucket allows at most capacity + rate * span spends in any span |
| FeedBounds.TokenEverIffRoom | src/feed.rs:85-96 | waiting can ever produce a token exactly when the capacity is at least one |
| FeedWindow.BucketPerFiveMinutes | src/exchange/mod.rs:35-47 | a venue's bucket on its own allows at most 305 attempts in five minutes for Binance and 155 for the others |
| FeedWindow.BucketAloneExceedsLimit | src/feed.rs:56-59 | and 305 is reached, five more than the limit Binance documents |
| Startup.UnstableRun | src/feed.rs:111-132 | with no stable connection the attempt count is the number of cycles and the clock is the sum of connections, jittered delays and late wakings |
| Startup.SeventhAttemptAfterGraceIff | src/aggregator.rs:19-21 | the first attempt after a whole backoff cycle is later than the grace period if and only if the cycle's sum, with the feed's own lag, exceeds 60 seconds |
| Startup.BackoffOutlastsGrace | src/aggregator.rs:101-109 | with no book received, a check up to that attempt ends the aggregator only if the sum exceeds 60 seconds, and then one at that attempt does |
| Startup.EitherWay | src/aggregator.rs:19-21 | with one jitter throughout, six immediate failures exceed the grace period if and only if the jitter exceeds 60/61 |
| Aggregator.Watch.Send | src/aggregator.rs:164-165 | replaces the value and its version unless no receiver is left |
| Aggregator.AggregatorTask.RecordAndPublish | src/aggregator.rs:122-180 | the whole new state and channel: held book, sample counts, duplicate or publication |
| Aggregator.AggregatorTask.LogReport | src/aggregator.rs:194-224 | the window's updates and all merges, with the three histograms emptied and nothing else changed |
| Aggregator.Run | src/aggregator.rs:74-116 | the select loop follows the event machine, its report subtraction never going below zero |
| AggregatorHistory.RunAccounts | src/aggregator.rs:122-180 | over every run counters and channel follow the history read off the events: each arrival whose recent books merge to something other than the last publication is published, and sent while a receiver lives, and nothing else is; updates and duplicates are the merges that gave a summary |
| AggregatorHistory.CellIsLastPublished | src/aggregator.rs:150-165 | while a receiver lives the channel's value is the last published summary |
| AggregatorHistory.RunWindowed | src/aggregator.rs:110-113 | a window's merge and total samples are its publications, at most its parse samples |
| AggregatorHistory.WindowSamples | src/aggregator.rs:194-224 | the parse samples of a window are the books received since the last report, its merge and total samples the publications since |
| AggregatorHistory.GivesUpIffNothingEverCame | src/aggregator.rs:101-109 | the aggregator gives up at a tick if and only if the grace period is over and no book ever came |
| AggregatorHistory.DoneIffEnded | src/aggregator.rs:87-109 | a run is over exactly if the channel closed or a check came after 60 seconds with no book before it |
| AggregatorHistory.ListenersCounted | src/server.rs:39-43 | receivers come only from receivers: once all are gone they stay gone |
| AggregatorHistory.VenuesRemembered | src/aggregator.rs:137-143 | while running it holds a book for exactly the venues that delivered one |
| AggregatorHistory.PublishedLevelsAreFresh | src/aggregator.rs:234-242 | every merged level is of a venue updated within its own threshold of the call's one instant, and from that side of that venue's held book |
| AggregatorHistory.HoldsLastReceived | src/aggregator.rs:137-143 | throughout a run the book and instant held for a venue are those of the last event that delivered one |
| AggregatorHistory.MergesRecentBooks | src/aggregator.rs:145-148 | in every run an arrival merges exactly the last book of each venue heard from within 1.5, 8 or 12 seconds |
| AggregatorHistory.LevelsComeFromFreshArrivals | src/aggregator.rs:137-148 | in every run each level merged at an arrival is of the last book received from its venue, which came within that venue's threshold of the arrival |
| AggregatorHistory.ArrivalIsFresh | src/aggregator.rs:137-145 | the arriving venue always takes part with the book it delivered |
| AggregatorHistory.StalenessNeverNarrowsSpread | src/aggregator.rs:145-148 | leaving stale venues out never narrows a published spread |
| AggregatorHistory.StalenessNeverImprovesRank | src/aggregator.rs:145-148 | nor improves the price at any rank of the published summary, if the fresh venues' books are price-sorted, whatever the stale ones' |
| Pipeline.NextKeepsQueue | src/feed.rs:255-258 | every move keeps the queue within 32 and each venue's sent books in order, none lost or repeated |
| Pipeline.EverySystemOk | src/main.rs:85-125 | all invariants hold after any moves of feeds, aggregator and clients |
| Pipeline.HistoryGrows | src/main.rs:85-125 | moves only add to the books sent, the publications and what each client has been shown |
| Pipeline.ClientsNeverGoBack | src/server.rs:39-44 | all a client was shown are the publications their versions name, with strictly increasing versions and never an older book of any venue |
| Pipeline.YieldIsRelease | src/server.rs:42-43 | a stream yields the newest publication, which stays the publication its version names in every later state |
| Pipeline.ReleaseLevelsAreSent | src/aggregator.rs:145-148 | each venue's levels in a publication are a prefix of one book it really sent, and there are no others |
| Progress.ParsingActs | src/feed.rs:239-258 | a feed takes in its next book exactly when it is not waiting for the queue |
| Progress.EnqueueingActs | src/feed.rs:255-258 | a waiting feed's book goes to the end of the queue exactly when fewer than 32 are in it |
| Progress.ConsumingActs | src/aggregator.rs:137-165 | the head of the queue is always taken, and the merge of the latest books of venues heard from in time published exactly if it is a summary other than the last |
| Progress.YieldingActs | src/server.rs:42-43 | a client behind the newest publication is always shown it, and no other is |
| Progress.SubscribingActs | src/server.rs:31-43 | a new client starts with nothing shown, however much has been published |
| Progress.CanAlwaysCatchUp | src/main.rs:85-125 | from every reachable state some moves, without new books or clients, bring every sent book to the aggregator and the newest publication to every client |
| EndToEnd.ReleaseMergesInFull | src/main.rs:85-125 | when Kraken's feed sends what an honest session returned, every publication with Kraken in it is the merge with the venue's whole book at the message that book came with |
| EndToEnd.ViewMergesInFull | src/server.rs:39-44 | and so is everything a client is shown |
| Terminal.VisibleLen | src/bin/client.rs:242-259 | counts the characters of the text without its escape codes |
| Terminal.ShadeCell | src/bin/client.rs:312-354 | prints, for any text, the runs between the sorted edges each behind its code, empty ones left out, and a reset |
| Terminal.ShadedShows | src/bin/client.rs:312-354 | a terminal shows that as the first 35 characters with each column's look, and is left reset; without codes those characters remain |
| Terminal.ColumnShows | src/bin/client.rs:312-354 | each of the 35 columns: its character, price colour in the first 26, bar background in as many columns as the fill is long from its own edge |
| Terminal.VisibleReads | src/bin/client.rs:242-259 | a bracketed code goes up to its first letter or the end, any other escape takes one character with it, everything else is visible |
| Terminal.ScreenShowsVisible | src/bin/client.rs:241-259 | the scanner's visible text is what a terminal shows, whatever the colours |

## Left out

- RunFeed: follows any finite number of cycles of a loop that has no end; the bounds hold for every such number.
- FromSnapshot: the JSON decoding before it is not modelled; a message arrives decoded or as undecodable.
- Run: histograms are sample counts, so rejected samples, quantiles and the report's percentages are not modelled, and `select!` is any order of events.
- ShadeCell: text shorter than 35 characters is required away, as the original's slice would be out of bounds.
- ShadedShows: text with escapes of its own is printed as it is, but what a terminal makes of it is not claimed.
- Take: requires room for one token and a positive rate; without room the original never returns (`TokenEverIffRoom`), and durations are not rounded to nanoseconds.
- ParseNumber: rounding to doubles, infinities, not-a-number and the sign of zero are not modelled.
- Websocket, TLS, proxy tunnel and gRPC transport: library calls; only the queue and latest-value channel between tasks are modelled.
- The checksum's polynomial: hashing is an arbitrary function, so nothing is claimed about collisions of the concatenated digits.
- Binance and Bitstamp parsing, symbol conversion, subscribe strings, configuration and telemetry: they would only add easy members.
- The rest of the terminal client and the load test: layout arithmetic with no invariant behind it.
- The supervisor that ends the process when one task ends: the pipeline's runs simply stop there.
