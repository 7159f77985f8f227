/**
 The library's stable sort (`slice::sort_by`), as insertion sort over a total preorder, with the
 facts the order-book proofs rest on: it sorts, it permutes and it is stable.
 */
module Sorting {
  import opened Collections

  /** `le(a, b)`: `a` may stand before `b`. */
  ghost predicate TotalPreorder<T(!new)>(le: (T, T) -> bool) {
    && (forall a, b :: le(a, b) || le(b, a))
    && (forall a, b, c :: le(a, b) && le(b, c) ==> le(a, c))
  }

  ghost predicate Sorted<T>(s: seq<T>, le: (T, T) -> bool) {
    forall i, j :: 0 <= i < j < |s| ==> le(s[i], s[j])
  }

  lemma SortedCons<T(!new)>(x: T, s: seq<T>, le: (T, T) -> bool)
    requires TotalPreorder(le)
    ensures Sorted([x] + s, le) <==> Sorted(s, le) && (s != [] ==> le(x, s[0]))
  {
    var t := [x] + s;
    if Sorted(t, le) {
      forall i, j | 0 <= i < j < |s| ensures le(s[i], s[j]) {
        assert le(t[i + 1], t[j + 1]);
      }
      assert s != [] ==> le(t[0], t[1]);
    }
    if Sorted(s, le) && (s != [] ==> le(x, s[0])) {
      forall i, j | 0 <= i < j < |t| ensures le(t[i], t[j]) {
        if i > 0 {
          assert le(s[i - 1], s[j - 1]);
        } else if j > 1 {
          assert le(s[0], s[j - 1]);
        }
      }
    }
  }

  /** Puts `x` before the first element it may stand before. */
  function Insert<T>(x: T, s: seq<T>, le: (T, T) -> bool): (r: seq<T>)
    ensures |r| == |s| + 1
  {
    if s == [] then [x]
    else if le(x, s[0]) then [x] + s
    else [s[0]] + Insert(x, s[1..], le)
  }

  function SortBy<T>(s: seq<T>, le: (T, T) -> bool): (r: seq<T>)
    ensures |r| == |s|
  {
    if s == [] then [] else Insert(s[0], SortBy(s[1..], le), le)
  }

  lemma {:induction false} InsertPermutes<T>(x: T, s: seq<T>, le: (T, T) -> bool)
    ensures multiset(Insert(x, s, le)) == multiset(s) + multiset{x}
  {
    if s != [] {
      assert s == [s[0]] + s[1..];
      InsertPermutes(x, s[1..], le);
    }
  }

  /** Sorting rearranges: the same elements, each as often. */
  lemma {:induction false} SortPermutes<T>(s: seq<T>, le: (T, T) -> bool)
    ensures multiset(SortBy(s, le)) == multiset(s)
  {
    if s != [] {
      assert s == [s[0]] + s[1..];
      SortPermutes(s[1..], le);
      InsertPermutes(s[0], SortBy(s[1..], le), le);
    }
  }

  lemma {:induction false} InsertElements<T(!new)>(x: T, s: seq<T>, le: (T, T) -> bool)
    ensures forall y :: y in Insert(x, s, le) <==> y == x || y in s
  {
    if s != [] {
      InsertElements(x, s[1..], le);
    }
  }

  lemma {:induction false} SortElements<T(!new)>(s: seq<T>, le: (T, T) -> bool)
    ensures forall y :: y in SortBy(s, le) <==> y in s
  {
    if s != [] {
      SortElements(s[1..], le);
      InsertElements(s[0], SortBy(s[1..], le), le);
    }
  }

  lemma {:induction false} InsertSorted<T(!new)>(x: T, s: seq<T>, le: (T, T) -> bool)
    requires TotalPreorder(le) && Sorted(s, le)
    ensures Sorted(Insert(x, s, le), le)
  {
    if s != [] && !le(x, s[0]) {
      var t := Insert(x, s[1..], le);
      InsertSorted(x, s[1..], le);
      InsertElements(x, s[1..], le);
      forall y | y in t ensures le(s[0], y) {
        assert y == x || y in s[1..];
      }
      assert Insert(x, s, le) == [s[0]] + t;
    }
  }

  lemma {:induction false} SortSorted<T(!new)>(s: seq<T>, le: (T, T) -> bool)
    requires TotalPreorder(le)
    ensures Sorted(SortBy(s, le), le)
  {
    if s != [] {
      SortSorted(s[1..], le);
      InsertSorted(s[0], SortBy(s[1..], le), le);
    }
  }

  /** An already sorted list is left as it is. */
  lemma {:induction false} SortIdentity<T(!new)>(s: seq<T>, le: (T, T) -> bool)
    requires TotalPreorder(le) && Sorted(s, le)
    ensures SortBy(s, le) == s
  {
    if s != [] {
      SortIdentity(s[1..], le);
    }
  }

  /** What is kept of a sorted list is sorted. */
  lemma {:induction false} FilterSorted<T(!new)>(s: seq<T>, p: T -> bool, le: (T, T) -> bool)
    requires Sorted(s, le)
    ensures Sorted(Filter(s, p), le)
  {
    if s != [] {
      FilterSorted(s[1..], p, le);
      FilterElements(s[1..], p);
      var rest := Filter(s[1..], p);
      forall x | x in rest ensures le(s[0], x) {
        assert x in s[1..];
      }
    }
  }

  /** Two elements that `p` selects are never told apart by `le`. */
  ghost predicate WithinTie<T(!new)>(p: T -> bool, le: (T, T) -> bool) {
    forall a, b :: p(a) && p(b) ==> le(a, b)
  }

  lemma {:induction false} InsertStable<T(!new)>(x: T, s: seq<T>, le: (T, T) -> bool, p: T -> bool)
    requires TotalPreorder(le) && WithinTie(p, le)
    ensures Filter(Insert(x, s, le), p) == Filter([x] + s, p)
  {
    if s != [] && !le(x, s[0]) {
      var t := Insert(x, s[1..], le);
      InsertStable(x, s[1..], le, p);
      assert ([s[0]] + t)[1..] == t;
      assert ([x] + s)[1..] == s;
      assert ([x] + s[1..])[1..] == s[1..];
    }
  }

  /** Stability: the elements of one tie keep their relative order. */
  lemma {:induction false} SortStable<T(!new)>(s: seq<T>, le: (T, T) -> bool, p: T -> bool)
    requires TotalPreorder(le) && WithinTie(p, le)
    ensures Filter(SortBy(s, le), p) == Filter(s, p)
  {
    if s != [] {
      var t := SortBy(s[1..], le);
      SortStable(s[1..], le, p);
      InsertStable(s[0], t, le, p);
      assert ([s[0]] + t)[1..] == t;
    }
  }

  lemma InsertFront<T(!new)>(x: T, s: seq<T>, le: (T, T) -> bool)
    requires forall y :: y in s ==> le(x, y)
    ensures Insert(x, s, le) == [x] + s
  {
  }

  /**
   An element that may stand before everything comes out first, provided the ones it overtakes are
   either strictly after it or indistinguishable from it.
   */
  lemma {:induction false} PullMinimum<T(!new)>(pre: seq<T>, x: T, post: seq<T>, le: (T, T) -> bool)
    requires TotalPreorder(le)
    requires forall y :: y in pre ==> le(x, y) && (le(y, x) ==> y == x)
    requires forall y :: y in post ==> le(x, y)
    ensures SortBy(pre + [x] + post, le) == [x] + SortBy(pre + post, le)
  {
    if pre == [] {
      assert (pre + [x] + post)[1..] == post && pre + post == post;
      SortElements(post, le);
      InsertFront(x, SortBy(post, le), le);
    } else {
      assert (pre + [x] + post)[1..] == pre[1..] + [x] + post;
      assert (pre + post)[1..] == pre[1..] + post;
      PullMinimum(pre[1..], x, post, le);
      var t := SortBy(pre[1..] + post, le);
      assert ([x] + t)[1..] == t;
      if le(pre[0], x) {
        SortElements(pre[1..] + post, le);
        InsertFront(pre[0], t, le);
      }
    }
  }

  /** `t` is at least as long as `u` and at least as good at every rank `u` has. */
  ghost predicate Dominates<T>(t: seq<T>, u: seq<T>, le: (T, T) -> bool) {
    |u| <= |t| && forall k :: 0 <= k < |u| ==> le(t[k], u[k])
  }

  /** A list out of order is so at some neighbours. */
  lemma {:induction false} NeighboursOutOfOrder<T(!new)>(s: seq<T>, le: (T, T) -> bool, i: nat, j: nat) returns (k: nat)
    requires TotalPreorder(le) && i < j < |s| && !le(s[i], s[j])
    ensures i <= k < j && !le(s[k], s[k + 1])
    decreases j - i
  {
    if j == i + 1 || !le(s[i], s[i + 1]) {
      k := i;
    } else {
      k := NeighboursOutOfOrder(s, le, i + 1, j);
    }
  }

  /** How many elements come before the first descent. */
  function SortedRun<T>(s: seq<T>, le: (T, T) -> bool): (r: nat)
    ensures r <= |s|
  {
    if |s| <= 1 then |s| else if le(s[0], s[1]) then 1 + SortedRun(s[1..], le) else 1
  }

  /** Exactly the prefixes up to there are sorted. */
  lemma {:induction false} SortedRunIff<T(!new)>(s: seq<T>, le: (T, T) -> bool, k: nat)
    requires TotalPreorder(le) && k <= |s|
    ensures Sorted(s[..k], le) <==> k <= SortedRun(s, le)
  {
    if k >= 2 {
      SortedCons(s[0], s[1..][..k - 1], le);
      assert s[..k] == [s[0]] + s[1..][..k - 1];
      SortedRunIff(s[1..], le, k - 1);
    }
  }
}
