/**
 One side of Kraken's held book: a list of levels kept by retain, push, stable sort and truncate.
 A sorted side is determined by what it holds at each price, which is how every result here is
 proved; strictly sorted sides are exactly the sorted lists of price maps.
 */
module KrakenSide {
  import opened Collections
  import opened Sorting

  const DEPTH: nat := 10

  /** A level: the parsed numbers, and the wire text the checksum needs. */
  datatype KrakenLevel = KrakenLevel(price: real, priceRaw: string, qty: real, qtyRaw: string)

  function SideOrder(ascending: bool): (KrakenLevel, KrakenLevel) -> bool {
    (a: KrakenLevel, b: KrakenLevel) => if ascending then a.price <= b.price else b.price <= a.price
  }

  function AtPrice(p: real): KrakenLevel -> bool {
    (l: KrakenLevel) => l.price == p
  }

  function NotAtPrice(p: real): KrakenLevel -> bool {
    (l: KrakenLevel) => l.price != p
  }

  /** What a list holds at price `p`, in order. */
  function At(s: seq<KrakenLevel>, p: real): seq<KrakenLevel> {
    Filter(s, AtPrice(p))
  }

  ghost predicate SideSorted(s: seq<KrakenLevel>, ascending: bool) {
    Sorted(s, SideOrder(ascending))
  }

  ghost predicate StrictlySorted(s: seq<KrakenLevel>, ascending: bool) {
    forall i, j :: 0 <= i < j < |s| ==> !SideOrder(ascending)(s[j], s[i])
  }

  // ---------------------------------------------------------------- upsert

  /** What a change leaves at its own price: nothing when the quantity is zero. */
  function Meaning(change: KrakenLevel): seq<KrakenLevel> {
    if change.qty != 0.0 then [change] else []
  }

  function Upserted(levels: seq<KrakenLevel>, level: KrakenLevel, ascending: bool): seq<KrakenLevel> {
    SortBy(Filter(levels, NotAtPrice(level.price)) + Meaning(level), SideOrder(ascending))
  }

  /** `retain`, `push` unless the quantity is zero, `sort_by`: the list is replaced throughout. */
  method Upsert(levels: seq<KrakenLevel>, level: KrakenLevel, ascending: bool) returns (updated: seq<KrakenLevel>)
    ensures updated == Upserted(levels, level, ascending)
    ensures SideSorted(updated, ascending)
    ensures forall p :: At(updated, p) == if p == level.price then Meaning(level) else At(levels, p)
  {
    updated := Filter(levels, NotAtPrice(level.price));
    if level.qty != 0.0 {
      updated := updated + [level];
    }
    updated := SortBy(updated, SideOrder(ascending));
    assert Filter(levels, NotAtPrice(level.price)) + [] == Filter(levels, NotAtPrice(level.price));
    UpsertSorted(levels, level, ascending);
    forall p ensures At(updated, p) == if p == level.price then Meaning(level) else At(levels, p) {
      UpsertAt(levels, level, ascending, p);
    }
  }

  lemma OrderIsTotal(ascending: bool)
    ensures TotalPreorder(SideOrder(ascending))
    ensures forall p :: WithinTie(AtPrice(p), SideOrder(ascending))
  {
  }

  lemma UpsertSorted(levels: seq<KrakenLevel>, level: KrakenLevel, ascending: bool)
    ensures SideSorted(Upserted(levels, level, ascending), ascending)
  {
    OrderIsTotal(ascending);
    SortSorted(Filter(levels, NotAtPrice(level.price)) + Meaning(level), SideOrder(ascending));
  }

  lemma {:induction false} RetainAt(levels: seq<KrakenLevel>, removed: real, p: real)
    ensures At(Filter(levels, NotAtPrice(removed)), p) == if p == removed then [] else At(levels, p)
  {
    if levels != [] {
      RetainAt(levels[1..], removed, p);
      var rest := Filter(levels[1..], NotAtPrice(removed));
      AtFirst(levels, p);
      AtFirst([levels[0]] + rest, p);
      assert ([levels[0]] + rest)[1..] == rest;
      assert [] + rest == rest;
    }
  }

  /** One upsert rewrites its own price and no other. */
  lemma UpsertAt(levels: seq<KrakenLevel>, level: KrakenLevel, ascending: bool, p: real)
    ensures At(Upserted(levels, level, ascending), p) == if p == level.price then Meaning(level) else At(levels, p)
  {
    var kept := Filter(levels, NotAtPrice(level.price));
    OrderIsTotal(ascending);
    SortStable(kept + Meaning(level), SideOrder(ascending), AtPrice(p));
    FilterConcat(kept, Meaning(level), AtPrice(p));
    RetainAt(levels, level.price, p);
  }

  // ---------------------------------------------------------------- a list of changes

  /** Applying changes one after the other, without truncation. */
  function UpsertAll(levels: seq<KrakenLevel>, changes: seq<KrakenLevel>, ascending: bool): seq<KrakenLevel>
    decreases changes
  {
    if changes == [] then levels
    else UpsertAll(Upserted(levels, changes[0], ascending), changes[1..], ascending)
  }

  lemma UpsertAllCons(levels: seq<KrakenLevel>, change: KrakenLevel, rest: seq<KrakenLevel>, ascending: bool)
    ensures UpsertAll(levels, [change] + rest, ascending) == UpsertAll(Upserted(levels, change, ascending), rest, ascending)
  {
    assert ([change] + rest)[1..] == rest;
  }

  /** The last change made to price `p`, if any. */
  function LastChange(changes: seq<KrakenLevel>, p: real): Option<KrakenLevel> {
    if changes == [] then None
    else if LastChange(changes[1..], p).Some? then LastChange(changes[1..], p)
    else if changes[0].price == p then Some(changes[0])
    else None
  }

  /** What is at `p` afterwards: the last change to it, or what was there. */
  lemma {:induction false} UpsertAllAt(levels: seq<KrakenLevel>, changes: seq<KrakenLevel>, ascending: bool, p: real)
    ensures At(UpsertAll(levels, changes, ascending), p)
         == if LastChange(changes, p).Some? then Meaning(LastChange(changes, p).value) else At(levels, p)
    decreases changes
  {
    if changes != [] {
      UpsertAllAt(Upserted(levels, changes[0], ascending), changes[1..], ascending, p);
      UpsertAt(levels, changes[0], ascending, p);
    }
  }

  lemma {:induction false} UpsertAllSorted(levels: seq<KrakenLevel>, changes: seq<KrakenLevel>, ascending: bool)
    requires SideSorted(levels, ascending)
    ensures SideSorted(UpsertAll(levels, changes, ascending), ascending)
    decreases changes
  {
    if changes != [] {
      UpsertSorted(levels, changes[0], ascending);
      UpsertAllSorted(Upserted(levels, changes[0], ascending), changes[1..], ascending);
    }
  }

  // ---------------------------------------------------------------- extensionality of sorted sides

  lemma AtFirst(s: seq<KrakenLevel>, p: real)
    requires s != []
    ensures At(s, p) == (if s[0].price == p then [s[0]] else []) + At(s[1..], p)
  {
  }

  lemma AtMember(s: seq<KrakenLevel>, p: real)
    ensures At(s, p) != [] <==> exists l :: l in s && l.price == p
    ensures forall l :: l in At(s, p) ==> l in s && l.price == p
  {
    FilterElements(s, AtPrice(p));
    if l :| l in s && l.price == p {
      assert l in At(s, p);
    }
    if At(s, p) != [] {
      assert At(s, p)[0] in At(s, p);
    }
  }

  /** Two sorted sides holding the same at every price are the same side. */
  lemma {:induction false} SameAtSameSide(s: seq<KrakenLevel>, t: seq<KrakenLevel>, ascending: bool)
    requires SideSorted(s, ascending) && SideSorted(t, ascending)
    requires forall p :: At(s, p) == At(t, p)
    ensures s == t
  {
    if s == [] {
      if t != [] {
        AtFirst(t, t[0].price);
        assert false;
      }
    } else {
      FrontsAgree(s, t, ascending);
      forall p ensures At(s[1..], p) == At(t[1..], p) {
        AtFirst(s, p);
        AtFirst(t, p);
        assert At(s, p) == At(t, p);
        if s[0].price == p {
          assert At(s[1..], p) == At(s, p)[1..] && At(t[1..], p) == At(t, p)[1..];
        } else {
          assert At(s, p) == At(s[1..], p) && At(t, p) == At(t[1..], p);
        }
      }
      SameAtSameSide(s[1..], t[1..], ascending);
    }
  }

  lemma FrontsAgree(s: seq<KrakenLevel>, t: seq<KrakenLevel>, ascending: bool)
    requires SideSorted(s, ascending) && SideSorted(t, ascending) && s != []
    requires forall p :: At(s, p) == At(t, p)
    ensures t != [] && s[0] == t[0]
  {
    AtFirst(s, s[0].price);
    assert At(t, s[0].price) != [];
    AtMember(t, s[0].price);
    var l :| l in t && l.price == s[0].price;
    AtFirst(t, t[0].price);
    assert At(s, t[0].price) != [];
    AtMember(s, t[0].price);
    var k :| k in s && k.price == t[0].price;
    assert s[0] == k || SideOrder(ascending)(s[0], k);
    assert t[0] == l || SideOrder(ascending)(t[0], l);
    assert s[0].price == t[0].price;
    AtFirst(t, s[0].price);
    assert At(s, s[0].price)[0] == s[0] && At(t, s[0].price)[0] == t[0];
  }

  // ---------------------------------------------------------------- truncation

  function Cut(s: seq<KrakenLevel>): seq<KrakenLevel> {
    Truncate(s, DEPTH)
  }

  /** What truncation drops. */
  function Dropped(s: seq<KrakenLevel>): seq<KrakenLevel> {
    s[|Cut(s)|..]
  }

  /** One side after a fully parsed update. */
  function UpdatedSide(levels: seq<KrakenLevel>, changes: seq<KrakenLevel>, ascending: bool): seq<KrakenLevel> {
    Cut(UpsertAll(levels, changes, ascending))
  }

  lemma CutAt(s: seq<KrakenLevel>, p: real)
    ensures At(s, p) == At(Cut(s), p) + At(Dropped(s), p)
  {
    assert s == Cut(s) + Dropped(s);
    FilterConcat(Cut(s), Dropped(s), AtPrice(p));
  }

  function KeptPrice(keep: real -> bool): KrakenLevel -> bool {
    (l: KrakenLevel) => keep(l.price)
  }

  lemma {:induction false} AtOfFilter(s: seq<KrakenLevel>, keep: real -> bool, p: real)
    ensures At(Filter(s, KeptPrice(keep)), p) == if keep(p) then At(s, p) else []
  {
    if s != [] {
      AtOfFilter(s[1..], keep, p);
      var rest := Filter(s[1..], KeptPrice(keep));
      AtFirst(s, p);
      AtFirst([s[0]] + rest, p);
      assert ([s[0]] + rest)[1..] == rest;
      assert [] + rest == rest;
    }
  }

  /**
   The truncated side is settled by what it keeps: a sorted side holding all of `Cut(whole)`, and
   beyond it only some of what `whole` drops, truncates to the same ten levels.
   */
  lemma CutDetermined(whole: seq<KrakenLevel>, part: seq<KrakenLevel>, keep: real -> bool, ascending: bool)
    requires SideSorted(whole, ascending) && SideSorted(part, ascending)
    requires forall p :: At(part, p) == At(Cut(whole), p) + if keep(p) then At(Dropped(whole), p) else []
    ensures Cut(part) == Cut(whole)
  {
    var top, rest := Cut(whole), Filter(Dropped(whole), KeptPrice(keep));
    assert SideSorted(top + rest, ascending) by {
      FilterSorted(Dropped(whole), KeptPrice(keep), SideOrder(ascending));
      FilterElements(Dropped(whole), KeptPrice(keep));
      forall i, j | 0 <= i < j < |top + rest| ensures SideOrder(ascending)((top + rest)[i], (top + rest)[j]) {
        if i < |top| <= j {
          assert rest[j - |top|] in Dropped(whole);
          var k :| 0 <= k < |Dropped(whole)| && rest[j - |top|] == Dropped(whole)[k];
          assert whole[|top| + k] == rest[j - |top|];
        }
      }
    }
    forall p ensures At(part, p) == At(top + rest, p) {
      FilterConcat(top, rest, AtPrice(p));
      AtOfFilter(Dropped(whole), keep, p);
    }
    SameAtSameSide(part, top + rest, ascending);
    if |whole| <= DEPTH {
      FilterAllOrNothing(Dropped(whole), KeptPrice(keep));
    }
  }

  /** Which prices a list of changes names. */
  function Named(changes: seq<KrakenLevel>): real -> bool {
    (p: real) => LastChange(changes, p).Some?
  }

  /**
   Idempotence: the same update applied and truncated twice leaves what it left once, although
   truncation may have dropped levels in between.
   */
  lemma UpdateIdempotent(levels: seq<KrakenLevel>, changes: seq<KrakenLevel>, ascending: bool)
    requires SideSorted(levels, ascending)
    ensures var once := UpdatedSide(levels, changes, ascending);
            UpdatedSide(once, changes, ascending) == once
  {
    var t := UpsertAll(levels, changes, ascending);
    var u := UpsertAll(Cut(t), changes, ascending);
    UpsertAllSorted(levels, changes, ascending);
    UpsertAllSorted(Cut(t), changes, ascending);
    forall p ensures At(u, p) == At(Cut(t), p) + if Named(changes)(p) then At(Dropped(t), p) else [] {
      UpsertAllAt(levels, changes, ascending, p);
      UpsertAllAt(Cut(t), changes, ascending, p);
      CutAt(t, p);
    }
    CutDetermined(t, u, Named(changes), ascending);
  }

  /** Without truncation too, a second application finds nothing left to do. */
  lemma UpsertAllIdempotent(levels: seq<KrakenLevel>, changes: seq<KrakenLevel>, ascending: bool)
    requires SideSorted(levels, ascending)
    ensures var once := UpsertAll(levels, changes, ascending);
            UpsertAll(once, changes, ascending) == once
  {
    var once := UpsertAll(levels, changes, ascending);
    var twice := UpsertAll(once, changes, ascending);
    UpsertAllSorted(levels, changes, ascending);
    UpsertAllSorted(once, changes, ascending);
    forall p ensures At(twice, p) == At(once, p) {
      UpsertAllAt(levels, changes, ascending, p);
      UpsertAllAt(once, changes, ascending, p);
    }
    SameAtSameSide(twice, once, ascending);
  }

  // ---------------------------------------------------------------- order of changes

  ghost predicate DistinctPrices(changes: seq<KrakenLevel>) {
    forall i, j :: 0 <= i < j < |changes| ==> changes[i].price != changes[j].price
  }

  lemma {:induction false} LastChangeDistinct(changes: seq<KrakenLevel>, p: real, c: KrakenLevel)
    requires DistinctPrices(changes)
    ensures LastChange(changes, p) == Some(c) <==> c in changes && c.price == p
  {
    if changes != [] {
      LastChangeDistinct(changes[1..], p, c);
      LastChangeIsChange(changes[1..], p);
    }
  }

  lemma {:induction false} LastChangeIsChange(changes: seq<KrakenLevel>, p: real)
    ensures LastChange(changes, p).Some? ==> LastChange(changes, p).value in changes && LastChange(changes, p).value.price == p
    ensures LastChange(changes, p).None? ==> forall c :: c in changes ==> c.price != p
  {
    if changes != [] {
      LastChangeIsChange(changes[1..], p);
    }
  }

  /** The last change to a price is the one with no later change to it. */
  lemma {:induction false} LastChangeIsLast(changes: seq<KrakenLevel>, p: real) returns (i: nat)
    requires LastChange(changes, p).Some?
    ensures i < |changes| && changes[i].price == p && LastChange(changes, p) == Some(changes[i])
    ensures forall j :: i < j < |changes| ==> changes[j].price != p
  {
    if LastChange(changes[1..], p).Some? {
      var k := LastChangeIsLast(changes[1..], p);
      i := k + 1;
      assert forall j :: i < j < |changes| ==> changes[j] == changes[1..][j - 1];
    } else {
      i := 0;
      LastChangeIsChange(changes[1..], p);
      assert forall j :: 0 < j < |changes| ==> changes[j] in changes[1..];
    }
  }

  lemma {:induction false} DistinctCount(changes: seq<KrakenLevel>, c: KrakenLevel)
    requires DistinctPrices(changes)
    ensures multiset(changes)[c] <= 1
  {
    if changes != [] {
      assert changes == [changes[0]] + changes[1..];
      DistinctCount(changes[1..], c);
      if c == changes[0] {
        assert c !in changes[1..];
      }
    }
  }

  lemma ShuffleKeepsDistinct(changes: seq<KrakenLevel>, shuffled: seq<KrakenLevel>)
    requires DistinctPrices(changes) && multiset(changes) == multiset(shuffled)
    ensures DistinctPrices(shuffled)
  {
    forall i, j | 0 <= i < j < |shuffled| ensures shuffled[i].price != shuffled[j].price {
      var x, y := shuffled[i], shuffled[j];
      assert x in multiset(changes) && y in multiset(changes);
      DistinctCount(changes, x);
      if x == y {
        TwiceCounted(shuffled, i, j);
      }
    }
  }

  lemma TwiceCounted(changes: seq<KrakenLevel>, i: nat, j: nat)
    requires i < j < |changes| && changes[i] == changes[j]
    ensures multiset(changes)[changes[i]] >= 2
  {
    assert changes == changes[..j] + changes[j..];
    assert changes[i] in changes[..j] && changes[j..][0] == changes[i];
  }

  /** Changes to distinct prices may come in any order. */
  lemma UpdateOrderIrrelevant(levels: seq<KrakenLevel>, changes: seq<KrakenLevel>, shuffled: seq<KrakenLevel>, ascending: bool)
    requires SideSorted(levels, ascending)
    requires DistinctPrices(changes) && multiset(changes) == multiset(shuffled)
    ensures UpdatedSide(levels, changes, ascending) == UpdatedSide(levels, shuffled, ascending)
  {
    ShuffleKeepsDistinct(changes, shuffled);
    forall p ensures At(UpsertAll(levels, changes, ascending), p) == At(UpsertAll(levels, shuffled, ascending), p) {
      SameLastChange(changes, shuffled, p);
      UpsertAllAt(levels, changes, ascending, p);
      UpsertAllAt(levels, shuffled, ascending, p);
    }
    UpsertAllSorted(levels, changes, ascending);
    UpsertAllSorted(levels, shuffled, ascending);
    SameAtSameSide(UpsertAll(levels, changes, ascending), UpsertAll(levels, shuffled, ascending), ascending);
  }

  lemma SameLastChange(changes: seq<KrakenLevel>, shuffled: seq<KrakenLevel>, p: real)
    requires DistinctPrices(changes) && DistinctPrices(shuffled) && multiset(changes) == multiset(shuffled)
    ensures LastChange(changes, p) == LastChange(shuffled, p)
  {
    assert forall c :: c in changes <==> c in multiset(changes);
    assert forall c :: c in shuffled <==> c in multiset(shuffled);
    if LastChange(changes, p).Some? {
      LastChangeDistinct(changes, p, LastChange(changes, p).value);
      LastChangeDistinct(shuffled, p, LastChange(changes, p).value);
    } else if LastChange(shuffled, p).Some? {
      LastChangeDistinct(changes, p, LastChange(shuffled, p).value);
      LastChangeDistinct(shuffled, p, LastChange(shuffled, p).value);
    }
  }
}
