/** From Kraken's messages to what clients are shown: a release is the merge with the venue's whole book. */
module EndToEnd {
  import opened Collections
  import opened Model
  import opened Merge
  import opened KrakenSession
  import opened KrakenHistory
  import opened KrakenDepth
  import opened Pipeline

  /** The books the first `i` messages returned, in order: what the feed has to send. */
  function Returned(lib: Library, ds: seq<Delivery>, i: nat): seq<Book>
    requires i <= |ds|
  {
    if i == 0 then []
    else
      var book := PublishedAt(lib, ds, i - 1);
      Returned(lib, ds, i - 1) + if book.Some? then [book.value] else []
  }

  lemma {:induction false} ReturnedBy(lib: Library, ds: seq<Delivery>, i: nat, k: nat) returns (m: nat)
    requires i <= |ds| && k < |Returned(lib, ds, i)|
    ensures m < i && PublishedAt(lib, ds, m) == Some(Returned(lib, ds, i)[k])
  {
    hide Step;
    if k < |Returned(lib, ds, i - 1)| {
      m := ReturnedBy(lib, ds, i - 1, k);
    } else {
      m := i - 1;
    }
  }

  /**
   If Kraken's feed sends what an honest session returned, every release with Kraken in it is the
   merge of its other sources with Kraken's whole book, at the message that book came with.
   */
  lemma ReleaseMergesInFull(lib: Library, ds: seq<Delivery>, truths: seq<Truth>, actions: seq<Action>, i: nat, k: nat) returns (m: nat)
    requires HonestSession(lib, ds, truths)
    requires i <= |actions| && SystemAt(actions, i).sent.Get(Kraken) <= Returned(lib, ds, |ds|)
    requires k < |SystemAt(actions, i).published| && Kraken in SystemAt(actions, i).published[k].source
    ensures var s := SystemAt(actions, i);
            var r := s.published[k];
            && m < |ds| && r.source[Kraken] < |s.sent.Get(Kraken)|
            && PublishedAt(lib, ds, m) == Some(s.sent.Get(Kraken)[r.source[Kraken]])
            && var whole := ModelBook(FullSides(truths[m]), ds[m].startedAt, ds[m].parsedAt);
               MergeResult(SourceBooks(r.source, s.sent)[Kraken := whole]) == Some(r.summary)
  {
    hide Step, Next, MergeResult;
    var s := SystemAt(actions, i);
    var r := s.published[k];
    assert FromSent(r, s.sent) by {
      EverySystemOk(actions, i);
    }
    var books := SourceBooks(r.source, s.sent);
    m := ReturnedBy(lib, ds, |ds|, r.source[Kraken]);
    HonestSessionMergesInFull(lib, ds, truths, m, books);
    assert books[Kraken := books[Kraken]] == books;
  }

  /** And so is everything a client is shown. */
  lemma ViewMergesInFull(lib: Library, ds: seq<Delivery>, truths: seq<Truth>, actions: seq<Action>, i: nat, c: nat, j: nat)
    returns (r: Release, m: nat)
    requires HonestSession(lib, ds, truths)
    requires i <= |actions| && SystemAt(actions, i).sent.Get(Kraken) <= Returned(lib, ds, |ds|)
    requires c < |SystemAt(actions, i).seen| && j < |SystemAt(actions, i).seen[c]|
    ensures var s := SystemAt(actions, i);
            && r in s.published && s.seen[c][j].summary == r.summary
            && (Kraken in r.source ==>
                  && m < |ds|
                  && var whole := ModelBook(FullSides(truths[m]), ds[m].startedAt, ds[m].parsedAt);
                     MergeResult(SourceBooks(r.source, s.sent)[Kraken := whole]) == Some(s.seen[c][j].summary))
  {
    hide Step, Next, MergeResult, HonestSession, QueueOk, HoldsLatest, ReleasesOk;
    var s := SystemAt(actions, i);
    assert Shows(s.seen[c][j], s.published) by {
      EverySystemOk(actions, i);
      assert ClientOk(s.seen[c], s.published);
    }
    var k := s.seen[c][j].version - 1;
    r, m := s.published[k], 0;
    if Kraken in r.source {
      m := ReleaseMergesInFull(lib, ds, truths, actions, i, k);
    }
  }
}
