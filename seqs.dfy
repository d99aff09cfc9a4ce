/** Sums over sequences, used for score penalties and severity tallies, and the fact that they ignore order. */
module Seqs {

  function Elems<T>(s: seq<T>): set<T> {
    set x | x in s
  }

  predicate NoDuplicates<T(==)>(s: seq<T>) {
    forall i, j :: 0 <= i < j < |s| ==> s[i] != s[j]
  }

  /** `a` is `b` with some elements left out, the rest kept in order. */
  predicate Subsequence<T(==)>(a: seq<T>, b: seq<T>) {
    a == [] || (b != [] && ((a[0] == b[0] && Subsequence(a[1..], b[1..])) || Subsequence(a, b[1..])))
  }

  /** A common first element extends a subsequence; an extra first element of the whole keeps it. */
  lemma SubsequenceCons<T>(x: T, a: seq<T>, b: seq<T>)
    requires Subsequence(a, b)
    ensures Subsequence([x] + a, [x] + b)
    ensures Subsequence(a, [x] + b)
  {
    assert ([x] + a)[1..] == a;
    assert ([x] + b)[1..] == b;
  }

  /** What a subsequence holds, the whole holds. */
  lemma {:induction false} SubsequenceIn<T>(a: seq<T>, b: seq<T>, x: T)
    requires Subsequence(a, b) && x in a
    ensures x in b
  {
    if a[0] == b[0] && Subsequence(a[1..], b[1..]) {
      if x != a[0] {
        SubsequenceIn(a[1..], b[1..], x);
      }
    } else {
      SubsequenceIn(a, b[1..], x);
    }
  }

  /** Appending an element not yet listed keeps the listing free of duplicates. */
  lemma AppendFresh<T>(r: seq<T>, x: T)
    requires NoDuplicates(r) && x !in Elems(r)
    ensures NoDuplicates(r + [x]) && Elems(r + [x]) == Elems(r) + {x}
  {
    var r' := r + [x];
    forall i, j | 0 <= i < j < |r'| ensures r'[i] != r'[j] {
      if j == |r| {
        assert r'[i] == r[i] && r[i] in Elems(r);
      }
    }
  }

  /** `sum(f(x) for x in s)` */
  function Sum<T>(s: seq<T>, f: T -> int): int {
    if s == [] then 0 else Sum(s[..|s| - 1], f) + f(s[|s| - 1])
  }

  /** Number of elements of `s` that satisfy `p`. */
  function Count<T>(s: seq<T>, p: T -> bool): (n: nat)
    ensures n <= |s|
  {
    if s == [] then 0 else Count(s[..|s| - 1], p) + (if p(s[|s| - 1]) then 1 else 0)
  }

  lemma {:induction false} SumAppend<T>(a: seq<T>, b: seq<T>, f: T -> int)
    ensures Sum(a + b, f) == Sum(a, f) + Sum(b, f)
    decreases |b|
  {
    if b == [] {
      assert a + b == a;
    } else {
      SumAppend(a, b[..|b| - 1], f);
      DropLastAppend(a, b);
    }
  }

  /** Moving one step of a result from the part still to come to the part already built. */
  lemma ShiftStep<T>(done: seq<T>, step: seq<T>, rest: seq<T>, total: seq<T>)
    requires done + (step + rest) == total
    ensures (done + step) + rest == total
  {
    assert done + (step + rest) == (done + step) + rest;
  }

  lemma {:induction false} CountAppend<T>(a: seq<T>, b: seq<T>, p: T -> bool)
    ensures Count(a + b, p) == Count(a, p) + Count(b, p)
    decreases |b|
  {
    if b == [] {
      assert a + b == a;
    } else {
      CountAppend(a, b[..|b| - 1], p);
      assert (a + b)[..|a + b| - 1] == a + b[..|b| - 1];
    }
  }

  /** The count of a non-empty sequence: its first element, then the rest. */
  lemma CountCons<T>(s: seq<T>, p: T -> bool)
    requires s != []
    ensures Count(s, p) == (if p(s[0]) then 1 else 0) + Count(s[1..], p)
  {
    CountAppend([s[0]], s[1..], p);
    assert [s[0]] + s[1..] == s;
    assert [s[0]][..0] == [];
  }

  /** Taking an element out of a sequence that holds it. */
  lemma SplitAt<T>(b: seq<T>, x: T) returns (i: nat)
    requires x in multiset(b)
    ensures i < |b| && b[i] == x
    ensures b == b[..i] + [x] + b[i + 1..]
    ensures multiset(b[..i] + b[i + 1..]) == multiset(b) - multiset{x}
  {
    assert x in b;
    i :| 0 <= i < |b| && b[i] == x;
    assert b == b[..i] + [x] + b[i + 1..];
  }

  /** A sum does not depend on the order of the summands. */
  lemma {:induction false} SumPermutation<T>(a: seq<T>, b: seq<T>, f: T -> int)
    requires multiset(a) == multiset(b)
    ensures Sum(a, f) == Sum(b, f)
    decreases |a|
  {
    if a == [] {
      assert |b| == |multiset(b)| == 0;
    } else {
      var x := a[|a| - 1];
      var a' := a[..|a| - 1];
      assert a == a' + [x];
      assert x in multiset(b);
      var i := SplitAt(b, x);
      var b' := b[..i] + b[i + 1..];
      SumPermutation(a', b', f);
      SumSplit(b, i, f);
    }
  }

  /** Taking one summand out of a sum. */
  lemma SumSplit<T>(b: seq<T>, i: nat, f: T -> int)
    requires i < |b|
    ensures Sum(b, f) == Sum(b[..i] + b[i + 1..], f) + f(b[i])
  {
    SplitPoint(b, i);
    SumPieces(b[..i], b[i], b[i + 1..], f);
  }

  /** The sum over `l + [x] + r` and over `l + r`, piece by piece. */
  lemma SumPieces<T>(l: seq<T>, x: T, r: seq<T>, f: T -> int)
    ensures Sum(l + [x] + r, f) == Sum(l, f) + f(x) + Sum(r, f)
    ensures Sum(l + r, f) == Sum(l, f) + Sum(r, f)
  {
    SumAppend(l + [x], r, f);
    SumAppend(l, [x], f);
    SumAppend(l, r, f);
    assert Sum([x], f) == f(x) by { assert [x][..0] == []; }
  }

  function Indicator<T>(p: T -> bool): T -> int {
    x => if p(x) then 1 else 0
  }

  lemma {:induction false} CountIsSum<T>(s: seq<T>, p: T -> bool)
    ensures Count(s, p) == Sum(s, Indicator(p))
  {
    if s != [] {
      CountIsSum(s[..|s| - 1], p);
    }
  }

  /** A count does not depend on the order of the elements. */
  lemma CountPermutation<T>(a: seq<T>, b: seq<T>, p: T -> bool)
    requires multiset(a) == multiset(b)
    ensures Count(a, p) == Count(b, p)
  {
    CountIsSum(a, p);
    CountIsSum(b, p);
    SumPermutation(a, b, Indicator(p));
  }

  /** `[y for x in s for y in f(x)]` */
  function FlatMap<A, B>(s: seq<A>, f: A -> seq<B>): seq<B> {
    if s == [] then [] else FlatMap(s[..|s| - 1], f) + f(s[|s| - 1])
  }

  lemma {:induction false} FlatMapAppend<A, B>(a: seq<A>, b: seq<A>, f: A -> seq<B>)
    ensures FlatMap(a + b, f) == FlatMap(a, f) + FlatMap(b, f)
    decreases |b|
  {
    if b == [] {
      assert a + b == a;
    } else {
      var b', x := b[..|b| - 1], b[|b| - 1];
      DropLastAppend(a, b);
      calc {
        FlatMap(a + b, f);
        FlatMap(a + b', f) + f(x);
        { FlatMapAppend(a, b', f); }
        (FlatMap(a, f) + FlatMap(b', f)) + f(x);
        FlatMap(a, f) + (FlatMap(b', f) + f(x));
        FlatMap(a, f) + FlatMap(b, f);
      }
    }
  }

  /** Flattening does not depend on the order of the pieces, up to the order of the result. */
  lemma {:induction false} FlatMapPermutation<A, B>(a: seq<A>, b: seq<A>, f: A -> seq<B>)
    requires multiset(a) == multiset(b)
    ensures multiset(FlatMap(a, f)) == multiset(FlatMap(b, f))
    decreases |a|
  {
    if a == [] {
      assert |b| == |multiset(b)| == 0;
    } else {
      var x := a[|a| - 1];
      var a' := a[..|a| - 1];
      assert a == a' + [x];
      assert x in multiset(b);
      var i := SplitAt(b, x);
      var b' := b[..i] + b[i + 1..];
      FlatMapPermutation(a', b', f);
      FlatMapSplit(b, i, f);
      assert FlatMap(a, f) == FlatMap(a', f) + f(x);
    }
  }

  /** Taking one piece out of a flattening, as multisets. */
  lemma FlatMapSplit<A, B>(b: seq<A>, i: nat, f: A -> seq<B>)
    requires i < |b|
    ensures multiset(FlatMap(b, f)) == multiset(FlatMap(b[..i] + b[i + 1..], f)) + multiset(f(b[i]))
  {
    SplitPoint(b, i);
    FlatMapPieces(b[..i], b[i], b[i + 1..], f);
    MultisetOfThree(FlatMap(b[..i], f), f(b[i]), FlatMap(b[i + 1..], f));
  }

  /** The last element of `a + b` and what precedes it, for a non-empty `b`. */
  lemma DropLastAppend<T>(a: seq<T>, b: seq<T>)
    requires b != []
    ensures (a + b)[..|a + b| - 1] == a + b[..|b| - 1] && (a + b)[|a + b| - 1] == b[|b| - 1]
  {
  }

  /** A sequence around one of its positions. */
  lemma SplitPoint<T>(b: seq<T>, i: nat)
    requires i < |b|
    ensures b == b[..i] + [b[i]] + b[i + 1..]
  {
  }

  lemma MultisetOfThree<T>(l: seq<T>, x: seq<T>, r: seq<T>)
    ensures multiset(l + x + r) == multiset(l + r) + multiset(x)
  {
    assert multiset(l + x + r) == multiset(l) + multiset(x) + multiset(r);
    assert multiset(l + r) == multiset(l) + multiset(r);
  }

  /** The flattening of `l + [x] + r` and of `l + r`, piece by piece. */
  lemma FlatMapPieces<A, B>(l: seq<A>, x: A, r: seq<A>, f: A -> seq<B>)
    ensures FlatMap(l + [x] + r, f) == FlatMap(l, f) + f(x) + FlatMap(r, f)
    ensures FlatMap(l + r, f) == FlatMap(l, f) + FlatMap(r, f)
  {
    FlatMapAppend(l + [x], r, f);
    FlatMapAppend(l, [x], f);
    FlatMapAppend(l, r, f);
    assert FlatMap([x], f) == f(x) by { assert [x][..0] == []; }
  }

  /** A sequence without duplicates holds each of its elements once. */
  lemma {:induction false} NoDuplicatesMultiplicity<T>(s: seq<T>, x: T)
    requires NoDuplicates(s)
    ensures multiset(s)[x] == if x in s then 1 else 0
  {
    if s != [] {
      var s' := s[..|s| - 1];
      assert s == s' + [s[|s| - 1]];
      assert NoDuplicates(s');
      NoDuplicatesMultiplicity(s', x);
      if x == s[|s| - 1] {
        assert x !in s' by {
          forall k | 0 <= k < |s'| ensures s'[k] != x { assert s[k] != s[|s| - 1]; }
        }
      }
    }
  }

  /** Two listings of one set, each without duplicates, are permutations of each other. */
  lemma ListingsArePermutations<T>(a: seq<T>, b: seq<T>)
    requires NoDuplicates(a) && NoDuplicates(b) && Elems(a) == Elems(b)
    ensures multiset(a) == multiset(b)
  {
    forall x ensures multiset(a)[x] == multiset(b)[x] {
      NoDuplicatesMultiplicity(a, x);
      NoDuplicatesMultiplicity(b, x);
      assert x in a <==> x in Elems(a);
      assert x in b <==> x in Elems(b);
    }
  }

  /** A sequence without duplicates has as many distinct elements as positions. */
  lemma {:induction false} NoDuplicatesCard<T>(s: seq<T>)
    requires NoDuplicates(s)
    ensures |Elems(s)| == |s|
  {
    if s != [] {
      var s', x := s[..|s| - 1], s[|s| - 1];
      assert NoDuplicates(s');
      NoDuplicatesCard(s');
      assert Elems(s) == Elems(s') + {x} by {
        assert s == s' + [x];
      }
      assert x !in Elems(s') by {
        forall k | 0 <= k < |s'| ensures s'[k] != x { assert s[k] != s[|s| - 1]; }
      }
    }
  }

  /** A subset is no larger than its superset, and one of the same size is the whole of it. */
  lemma {:induction false} SubsetCard<T>(a: set<T>, b: set<T>)
    requires a <= b
    ensures |a| <= |b|
    ensures |a| == |b| ==> a == b
    decreases b
  {
    if b != {} {
      var x :| x in b;
      SubsetCard(a - {x}, b - {x});
      if x in a {
        assert |a - {x}| == |a| - 1;
        if |a| == |b| {
          assert a == (a - {x}) + {x} && b == (b - {x}) + {x};
        }
      } else {
        assert a - {x} == a;
      }
    }
  }
}
