/**
  `sorted`, as an insertion sort by a given comparison.

  Its result has the same elements in ascending order, and when no two of them come out level it depends
  only on the elements and not on their order.  Strings compare by code points.
 */
module Sorting {

  /** Everything compares; elements that are different may still come out level. */
  ghost predicate Ranks<T(!new)>(leq: (T, T) -> bool) {
    && (forall a, b :: leq(a, b) || leq(b, a))
    && (forall a, b, c :: leq(a, b) && leq(b, c) ==> leq(a, c))
  }

  /** No two of these come out level. */
  ghost predicate Separates<T>(leq: (T, T) -> bool, xs: seq<T>) {
    forall i, j :: 0 <= i < |xs| && 0 <= j < |xs| && leq(xs[i], xs[j]) && leq(xs[j], xs[i]) ==> xs[i] == xs[j]
  }

  ghost predicate TotalOrder<T(!new)>(leq: (T, T) -> bool) {
    Ranks(leq) && forall a, b :: leq(a, b) && leq(b, a) ==> a == b
  }

  function Insert<T>(leq: (T, T) -> bool, x: T, xs: seq<T>): seq<T> {
    if xs == [] || leq(x, xs[0]) then [x] + xs else [xs[0]] + Insert(leq, x, xs[1..])
  }

  function Sort<T>(leq: (T, T) -> bool, xs: seq<T>): seq<T> {
    if xs == [] then [] else Insert(leq, xs[0], Sort(leq, xs[1..]))
  }

  ghost predicate Ascending<T>(leq: (T, T) -> bool, xs: seq<T>) {
    forall i, j :: 0 <= i < j < |xs| ==> leq(xs[i], xs[j])
  }

  lemma {:induction false} ConsCounts<T>(x: T, xs: seq<T>)
    ensures multiset([x] + xs) == multiset{x} + multiset(xs)
  {
  }

  lemma {:induction false} HeadAndTail<T>(xs: seq<T>)
    requires xs != []
    ensures xs == [xs[0]] + xs[1..] && multiset(xs) == multiset{xs[0]} + multiset(xs[1..])
  {
    assert xs == [xs[0]] + xs[1..];
  }

  lemma {:induction false} InsertCounts<T>(leq: (T, T) -> bool, x: T, xs: seq<T>)
    ensures multiset(Insert(leq, x, xs)) == multiset{x} + multiset(xs)
    decreases |xs|
  {
    if xs == [] || leq(x, xs[0]) {
      ConsCounts(x, xs);
    } else {
      InsertCounts(leq, x, xs[1..]);
      ConsCounts(xs[0], Insert(leq, x, xs[1..]));
      HeadAndTail(xs);
    }
  }

  lemma {:induction false} SortCounts<T>(leq: (T, T) -> bool, xs: seq<T>)
    ensures multiset(Sort(leq, xs)) == multiset(xs)
    decreases |xs|
  {
    if xs != [] {
      SortCounts(leq, xs[1..]);
      InsertCounts(leq, xs[0], Sort(leq, xs[1..]));
      HeadAndTail(xs);
    }
  }

  lemma {:induction false} SortMembers<T>(leq: (T, T) -> bool, xs: seq<T>)
    ensures forall x :: x in Sort(leq, xs) <==> x in xs
    ensures |Sort(leq, xs)| == |xs|
  {
    SortCounts(leq, xs);
    forall x ensures x in Sort(leq, xs) <==> x in xs {
      assert x in multiset(Sort(leq, xs)) <==> x in multiset(xs);
    }
    assert |multiset(Sort(leq, xs))| == |multiset(xs)|;
  }

  lemma {:induction false} InsertAscends<T(!new)>(leq: (T, T) -> bool, x: T, xs: seq<T>)
    requires Ranks(leq) && Ascending(leq, xs)
    ensures Ascending(leq, Insert(leq, x, xs))
    decreases |xs|
  {
    if xs != [] && !leq(x, xs[0]) {
      var tail := Insert(leq, x, xs[1..]);
      InsertAscends(leq, x, xs[1..]);
      InsertCounts(leq, x, xs[1..]);
      forall i | 0 <= i < |tail| ensures leq(xs[0], tail[i]) {
        assert tail[i] in multiset(tail);
        assert tail[i] == x || tail[i] in xs[1..];
      }
    }
  }

  lemma {:induction false} SortAscends<T(!new)>(leq: (T, T) -> bool, xs: seq<T>)
    requires Ranks(leq)
    ensures Ascending(leq, Sort(leq, xs))
    decreases |xs|
  {
    if xs != [] {
      SortAscends(leq, xs[1..]);
      InsertAscends(leq, xs[0], Sort(leq, xs[1..]));
    }
  }

  /** Only one sequence of given elements is in order. */
  lemma {:induction false} AscendingIsUnique<T(!new)>(leq: (T, T) -> bool, xs: seq<T>, ys: seq<T>)
    requires Ascending(leq, xs) && Ascending(leq, ys) && Separates(leq, xs)
    requires multiset(xs) == multiset(ys)
    ensures xs == ys
    decreases |xs|
  {
    assert |multiset(xs)| == |multiset(ys)|;
    if xs != [] {
      HeadAndTail(xs);
      HeadAndTail(ys);
      SameHead(leq, xs, ys);
      assert multiset(xs[1..]) == multiset(xs) - multiset{xs[0]};
      assert multiset(ys[1..]) == multiset(ys) - multiset{ys[0]};
      AscendingIsUnique(leq, xs[1..], ys[1..]);
    }
  }

  lemma {:induction false} SameHead<T(!new)>(leq: (T, T) -> bool, xs: seq<T>, ys: seq<T>)
    requires Ascending(leq, xs) && Ascending(leq, ys) && Separates(leq, xs)
    requires xs != [] && ys != [] && multiset(xs) == multiset(ys)
    ensures xs[0] == ys[0]
  {
    assert xs[0] in multiset(ys) && ys[0] in multiset(xs);
    var i :| 0 <= i < |ys| && ys[i] == xs[0];
    var j :| 0 <= j < |xs| && xs[j] == ys[0];
    if i > 0 && j > 0 {
      assert leq(ys[0], ys[i]) && leq(xs[0], xs[j]);
    }
  }

  lemma {:induction false} SeparatesToo<T>(leq: (T, T) -> bool, xs: seq<T>, ys: seq<T>)
    requires Separates(leq, xs) && forall y :: y in ys ==> y in xs
    ensures Separates(leq, ys)
  {
    forall i, j | 0 <= i < |ys| && 0 <= j < |ys| && leq(ys[i], ys[j]) && leq(ys[j], ys[i]) ensures ys[i] == ys[j] {
      assert ys[i] in xs && ys[j] in xs;
      var k :| 0 <= k < |xs| && xs[k] == ys[i];
      var l :| 0 <= l < |xs| && xs[l] == ys[j];
    }
  }

  /** Sorting depends only on the elements, not on their order. */
  lemma {:induction false} SortIgnoresOrder<T(!new)>(leq: (T, T) -> bool, xs: seq<T>, ys: seq<T>)
    requires Ranks(leq) && Separates(leq, xs) && multiset(xs) == multiset(ys)
    ensures Sort(leq, xs) == Sort(leq, ys)
  {
    SortMembers(leq, xs);
    SeparatesToo(leq, xs, Sort(leq, xs));
    SortCounts(leq, xs);
    SortCounts(leq, ys);
    SortAscends(leq, xs);
    SortAscends(leq, ys);
    AscendingIsUnique(leq, Sort(leq, xs), Sort(leq, ys));
  }

  /** Element by element, the two lists stand in the relation. */
  ghost predicate Related<A, B>(rel: (A, B) -> bool, xs: seq<A>, ys: seq<B>) {
    |xs| == |ys| && forall i :: 0 <= i < |xs| ==> rel(xs[i], ys[i])
  }

  /** The relation does not change how two elements compare. */
  ghost predicate KeepsOrder<A(!new), B(!new)>(rel: (A, B) -> bool, leqA: (A, A) -> bool, leqB: (B, B) -> bool) {
    forall a, b, c, d :: rel(a, b) && rel(c, d) ==> (leqA(a, c) <==> leqB(b, d))
  }

  lemma {:induction false} RelatedCons<A, B>(rel: (A, B) -> bool, x: A, xs: seq<A>, y: B, ys: seq<B>)
    requires rel(x, y) && Related(rel, xs, ys)
    ensures Related(rel, [x] + xs, [y] + ys)
  {
  }

  lemma {:induction false} InsertKeepsRelation<A(!new), B(!new)>(rel: (A, B) -> bool, leqA: (A, A) -> bool,
                                                               leqB: (B, B) -> bool, x: A, xs: seq<A>, y: B,
                                                               ys: seq<B>)
    requires KeepsOrder(rel, leqA, leqB) && rel(x, y) && Related(rel, xs, ys)
    ensures Related(rel, Insert(leqA, x, xs), Insert(leqB, y, ys))
    decreases |xs|
  {
    if xs != [] {
      assert rel(xs[0], ys[0]);
      if leqA(x, xs[0]) {
        RelatedCons(rel, x, xs, y, ys);
      } else {
        InsertKeepsRelation(rel, leqA, leqB, x, xs[1..], y, ys[1..]);
        RelatedCons(rel, xs[0], Insert(leqA, x, xs[1..]), ys[0], Insert(leqB, y, ys[1..]));
      }
    }
  }

  /** Sorting both keeps them element by element in the relation. */
  lemma {:induction false} SortKeepsRelation<A(!new), B(!new)>(rel: (A, B) -> bool, leqA: (A, A) -> bool,
                                                             leqB: (B, B) -> bool, xs: seq<A>, ys: seq<B>)
    requires KeepsOrder(rel, leqA, leqB) && Related(rel, xs, ys)
    ensures Related(rel, Sort(leqA, xs), Sort(leqB, ys))
    decreases |xs|
  {
    if xs != [] {
      SortKeepsRelation(rel, leqA, leqB, xs[1..], ys[1..]);
      InsertKeepsRelation(rel, leqA, leqB, xs[0], Sort(leqA, xs[1..]), ys[0], Sort(leqB, ys[1..]));
    }
  }

  // ---------------------------------------------------------------------------------------------
  // Strings by code points
  // ---------------------------------------------------------------------------------------------

  predicate StringLeq(a: string, b: string) {
    a == "" || (b != "" && (a[0] < b[0] || (a[0] == b[0] && StringLeq(a[1..], b[1..]))))
  }

  lemma {:induction false} StringsCompare(a: string, b: string)
    ensures StringLeq(a, b) || StringLeq(b, a)
    ensures StringLeq(a, b) && StringLeq(b, a) ==> a == b
    decreases |a|
  {
    if a != "" && b != "" && a[0] == b[0] {
      StringsCompare(a[1..], b[1..]);
      HeadAndTail(a);
      HeadAndTail(b);
    }
  }

  lemma {:induction false} StringLeqIsTransitive(a: string, b: string, c: string)
    requires StringLeq(a, b) && StringLeq(b, c)
    ensures StringLeq(a, c)
    decreases |a|
  {
    if a != "" && a[0] == b[0] && b[0] == c[0] {
      StringLeqIsTransitive(a[1..], b[1..], c[1..]);
    }
  }

  lemma {:induction false} StringOrder()
    ensures TotalOrder(StringLeq)
  {
    forall a, b ensures StringLeq(a, b) || StringLeq(b, a) {
      StringsCompare(a, b);
    }
    forall a, b | StringLeq(a, b) && StringLeq(b, a) ensures a == b {
      StringsCompare(a, b);
    }
    forall a, b, c | StringLeq(a, b) && StringLeq(b, c) ensures StringLeq(a, c) {
      StringLeqIsTransitive(a, b, c);
    }
  }

  /** Two strings differ first at this place. */
  predicate DifferAt(a: string, b: string, k: int) {
    0 <= k < |a| && k < |b| && a[..k] == b[..k] && a[k] != b[k]
  }

  /** One string is the beginning of the other, or has the smaller character where they first differ. */
  lemma {:induction false} StringLeqExactly(a: string, b: string)
    ensures a <= b ==> StringLeq(a, b)
    ensures StringLeq(a, b) ==> a <= b || exists k :: DifferAt(a, b, k)
    ensures forall k :: DifferAt(a, b, k) ==> (StringLeq(a, b) <==> a[k] < b[k])
    decreases |a|
  {
    if a != "" && b != "" && a[0] == b[0] {
      StringLeqExactly(a[1..], b[1..]);
      if a[1..] <= b[1..] {
        assert a == [a[0]] + a[1..] && b == [b[0]] + b[1..];
      }
      forall k | DifferAt(a[1..], b[1..], k) ensures DifferAt(a, b, k + 1) {
        assert a[..k + 1] == [a[0]] + a[1..][..k] && b[..k + 1] == [b[0]] + b[1..][..k];
      }
      forall k | DifferAt(a, b, k) ensures k > 0 && DifferAt(a[1..], b[1..], k - 1) {
        assert a[1..][..k - 1] == a[..k][1..] && b[1..][..k - 1] == b[..k][1..];
      }
      forall k | DifferAt(a, b, k) ensures StringLeq(a, b) <==> a[k] < b[k] {
        assert DifferAt(a[1..], b[1..], k - 1);
      }
    } else if a != "" && b != "" {
      assert DifferAt(a, b, 0);
      forall k | DifferAt(a, b, k) ensures k == 0 {
        DifferLater(a, b, k);
      }
    }
  }

  lemma {:induction false} DifferLater(a: string, b: string, k: int)
    requires DifferAt(a, b, k)
    ensures k == 0 || a[0] == b[0]
  {
    if k > 0 {
      assert a[..k][0] == a[0] && b[..k][0] == b[0];
    }
  }
}
