/** Sequences up to reordering: sums and concatenations that ignore order, and the fact that a
    sorted permutation is unique when the order is antisymmetric. */
module Seqs {

  ghost predicate SortedBy<T(!new)>(s: seq<T>, leq: (T, T) -> bool) {
    forall i, j :: 0 <= i < j < |s| ==> leq(s[i], s[j])
  }

  ghost predicate Antisymmetric<T(!new)>(leq: (T, T) -> bool) {
    forall x, y :: leq(x, y) && leq(y, x) ==> x == y
  }

  predicate Distinct<T(==)>(s: seq<T>) {
    forall i, j :: 0 <= i < j < |s| ==> s[i] != s[j]
  }

  function Map<T, U>(f: T -> U, s: seq<T>): (r: seq<U>)
    ensures |r| == |s|
    ensures forall i :: 0 <= i < |s| ==> r[i] == f(s[i])
  {
    seq(|s|, i requires 0 <= i < |s| => f(s[i]))
  }

  function Flatten<T, U>(f: T -> seq<U>, s: seq<T>): seq<U> {
    if s == [] then [] else f(s[0]) + Flatten(f, s[1..])
  }

  function Filter<T>(p: T -> bool, s: seq<T>): (r: seq<T>)
    ensures |r| <= |s|
    ensures forall x :: x in r ==> x in s && p(x)
  {
    if s == [] then [] else (if p(s[0]) then [s[0]] else []) + Filter(p, s[1..])
  }

  function Sum<T>(f: T -> real, s: seq<T>): real {
    if s == [] then 0.0 else f(s[0]) + Sum(f, s[1..])
  }

  lemma HeadTail<T>(s: seq<T>)
    requires s != []
    ensures s == [s[0]] + s[1..]
    ensures multiset(s) == multiset{s[0]} + multiset(s[1..])
  {
    assert s == [s[0]] + s[1..];
  }

  lemma MiddleFirst<T>(x: seq<T>, y: seq<T>, z: seq<T>)
    ensures multiset(x + (y + z)) == multiset(y) + multiset(x + z)
  {
  }

  lemma Cancel<T>(x: T, m: multiset<T>, n: multiset<T>)
    requires multiset{x} + m == multiset{x} + n
    ensures m == n
  {
    assert m == (multiset{x} + m) - multiset{x};
    assert n == (multiset{x} + n) - multiset{x};
  }

  /** The first element of one permutation, found in the other, and what is left around it. */
  lemma FindHead<T>(a: seq<T>, b: seq<T>) returns (l: seq<T>, r: seq<T>)
    requires multiset(a) == multiset(b) && a != []
    ensures b == l + ([a[0]] + r)
    ensures multiset(a[1..]) == multiset(l + r)
  {
    HeadTail(a);
    assert a[0] in multiset(b);
    var k :| 0 <= k < |b| && b[k] == a[0];
    l, r := b[..k], b[k + 1..];
    assert b == l + ([a[0]] + r);
    MiddleFirst(l, [a[0]], r);
    assert multiset([a[0]]) == multiset{a[0]};
    Cancel(a[0], multiset(a[1..]), multiset(l + r));
  }

  lemma SameLength<T>(a: seq<T>, b: seq<T>)
    requires multiset(a) == multiset(b)
    ensures |a| == |b|
  {
    assert |multiset(a)| == |a| && |multiset(b)| == |b|;
  }

  lemma SortedHeadLeq<T(!new)>(a: seq<T>, x: T, leq: (T, T) -> bool)
    requires a != [] && SortedBy(a, leq) && x in multiset(a)
    ensures a[0] == x || leq(a[0], x)
  {
    var k :| 0 <= k < |a| && a[k] == x;
  }

  /** A sorted permutation is unique. */
  lemma {:induction false} SortedUnique<T(!new)>(a: seq<T>, b: seq<T>, leq: (T, T) -> bool)
    requires multiset(a) == multiset(b)
    requires SortedBy(a, leq) && SortedBy(b, leq) && Antisymmetric(leq)
    ensures a == b
  {
    SameLength(a, b);
    if a != [] {
      HeadTail(a);
      HeadTail(b);
      SortedHeadLeq(a, b[0], leq);
      SortedHeadLeq(b, a[0], leq);
      assert a[0] == b[0];
      Cancel(a[0], multiset(a[1..]), multiset(b[1..]));
      SortedUnique(a[1..], b[1..], leq);
    }
  }

  lemma {:induction false} FlattenConcat<T, U>(f: T -> seq<U>, a: seq<T>, b: seq<T>)
    ensures Flatten(f, a + b) == Flatten(f, a) + Flatten(f, b)
  {
    if a == [] {
      assert a + b == b;
    } else {
      assert (a + b)[1..] == a[1..] + b;
      FlattenConcat(f, a[1..], b);
    }
  }

  lemma FlattenCons<T, U>(f: T -> seq<U>, x: T, s: seq<T>)
    ensures Flatten(f, [x] + s) == f(x) + Flatten(f, s)
  {
    assert ([x] + s)[1..] == s;
  }

  lemma FlattenAround<T, U>(f: T -> seq<U>, l: seq<T>, x: T, r: seq<T>)
    ensures multiset(Flatten(f, l + ([x] + r))) == multiset(f(x)) + multiset(Flatten(f, l + r))
  {
    FlattenCons(f, x, r);
    FlattenConcat(f, l, r);
    FlattenConcat(f, l, [x] + r);
    MiddleFirst(Flatten(f, l), f(x), Flatten(f, r));
  }

  /** The elements of a concatenation do not depend on the order of its parts. */
  lemma {:induction false} FlattenPermutation<T, U>(f: T -> seq<U>, a: seq<T>, b: seq<T>)
    requires multiset(a) == multiset(b)
    ensures multiset(Flatten(f, a)) == multiset(Flatten(f, b))
    decreases |a|
  {
    if a == [] {
      SameLength(a, b);
    } else {
      var l, r := FindHead(a, b);
      FlattenPermutation(f, a[1..], l + r);
      FlattenAround(f, l, a[0], r);
    }
  }

  lemma MapConcat<T, U>(f: T -> U, a: seq<T>, b: seq<T>)
    ensures Map(f, a + b) == Map(f, a) + Map(f, b)
  {
  }

  lemma MapAround<T, U>(f: T -> U, l: seq<T>, x: T, r: seq<T>)
    ensures multiset(Map(f, l + ([x] + r))) == multiset{f(x)} + multiset(Map(f, l + r))
  {
    MapConcat(f, [x], r);
    MapConcat(f, l, r);
    MapConcat(f, l, [x] + r);
    assert Map(f, [x]) == [f(x)];
    MiddleFirst(Map(f, l), [f(x)], Map(f, r));
  }

  lemma {:induction false} MapPermutation<T, U>(f: T -> U, a: seq<T>, b: seq<T>)
    requires multiset(a) == multiset(b)
    ensures multiset(Map(f, a)) == multiset(Map(f, b))
    decreases |a|
  {
    if a == [] {
      SameLength(a, b);
    } else {
      var l, r := FindHead(a, b);
      MapPermutation(f, a[1..], l + r);
      MapAround(f, l, a[0], r);
      MapAround(f, [], a[0], a[1..]);
      assert a == [] + ([a[0]] + a[1..]) && a[1..] == [] + a[1..];
    }
  }

  lemma MapAppend<T, U>(f: T -> U, s: seq<T>, x: T)
    ensures Map(f, s + [x]) == Map(f, s) + [f(x)]
  {
  }

  lemma SplitMapped<T, U>(f: T -> U, b: seq<T>, l: seq<U>, x: U, r: seq<U>) returns (bl: seq<T>, y: T, br: seq<T>)
    requires Map(f, b) == l + ([x] + r)
    ensures b == bl + ([y] + br) && f(y) == x && Map(f, bl + br) == l + r
  {
    var k := |l|;
    assert Map(f, b)[k] == x;
    bl, y, br := b[..k], b[k], b[k + 1..];
    assert b == bl + ([y] + br);
    MapConcat(f, bl, br);
    assert Map(f, bl) == Map(f, b)[..k] == l;
    assert Map(f, br) == Map(f, b)[k + 1..] == r;
  }

  /** An injective function reflects permutations. */
  lemma {:induction false} MapReflectsPermutation<T(!new), U>(f: T -> U, a: seq<T>, b: seq<T>)
    requires forall x, y :: f(x) == f(y) ==> x == y
    requires multiset(Map(f, a)) == multiset(Map(f, b))
    ensures multiset(a) == multiset(b)
    decreases |a|
  {
    if a == [] {
      SameLength(Map(f, a), Map(f, b));
    } else {
      var l, r := FindHead(Map(f, a), Map(f, b));
      var bl, y, br := SplitMapped(f, b, l, f(a[0]), r);
      assert Map(f, a)[1..] == Map(f, a[1..]);
      MapReflectsPermutation(f, a[1..], bl + br);
      MiddleFirst(bl, [y], br);
      HeadTail(a);
    }
  }

  lemma {:induction false} SumConcat<T>(f: T -> real, a: seq<T>, b: seq<T>)
    ensures Sum(f, a + b) == Sum(f, a) + Sum(f, b)
  {
    if a == [] {
      assert a + b == b;
    } else {
      assert (a + b)[1..] == a[1..] + b;
      SumConcat(f, a[1..], b);
    }
  }

  lemma {:induction false} SumPermutation<T>(f: T -> real, a: seq<T>, b: seq<T>)
    requires multiset(a) == multiset(b)
    ensures Sum(f, a) == Sum(f, b)
    decreases |a|
  {
    if a == [] {
      SameLength(a, b);
    } else {
      var l, r := FindHead(a, b);
      SumPermutation(f, a[1..], l + r);
      SumConcat(f, l, r);
      SumConcat(f, [a[0]], r);
      SumConcat(f, l, [a[0]] + r);
    }
  }

  lemma {:induction false} FilterConcat<T>(p: T -> bool, a: seq<T>, b: seq<T>)
    ensures Filter(p, a + b) == Filter(p, a) + Filter(p, b)
  {
    if a == [] {
      assert a + b == b;
    } else {
      assert (a + b)[1..] == a[1..] + b;
      FilterConcat(p, a[1..], b);
    }
  }

  lemma FilterCons<T>(p: T -> bool, x: T, s: seq<T>)
    ensures Filter(p, [x] + s) == (if p(x) then [x] else []) + Filter(p, s)
  {
    assert ([x] + s)[1..] == s;
  }

  function Singleton<T>(p: T -> bool): T -> seq<T> {
    x => if p(x) then [x] else []
  }

  lemma {:induction false} FilterIsFlatten<T>(p: T -> bool, s: seq<T>)
    ensures Filter(p, s) == Flatten(Singleton(p), s)
  {
    if s != [] {
      FilterIsFlatten(p, s[1..]);
    }
  }

  lemma FilterPermutation<T>(p: T -> bool, a: seq<T>, b: seq<T>)
    requires multiset(a) == multiset(b)
    ensures multiset(Filter(p, a)) == multiset(Filter(p, b))
  {
    FilterIsFlatten(p, a);
    FilterIsFlatten(p, b);
    FlattenPermutation(Singleton(p), a, b);
  }

  lemma {:induction false} DistinctCount<T>(s: seq<T>, x: T)
    requires Distinct(s)
    ensures multiset(s)[x] == if x in s then 1 else 0
  {
    if s != [] {
      HeadTail(s);
      DistinctCount(s[1..], x);
    }
  }

  lemma DistinctConcat<T>(a: seq<T>, b: seq<T>)
    requires Distinct(a) && Distinct(b) && forall x :: x in a ==> x !in b
    ensures Distinct(a + b)
  {
    forall i, j | 0 <= i < j < |a + b| ensures (a + b)[i] != (a + b)[j] {
      if i < |a| <= j {
        assert a[i] in a && b[j - |a|] in b;
      }
    }
  }

  /** Two lists without repetition of the same elements are permutations of each other. */
  lemma DistinctPermutation<T>(a: seq<T>, b: seq<T>)
    requires Distinct(a) && Distinct(b)
    requires forall x :: x in a <==> x in b
    ensures multiset(a) == multiset(b)
  {
    forall x: T
      ensures multiset(a)[x] == multiset(b)[x]
    {
      DistinctCount(a, x);
      DistinctCount(b, x);
    }
  }

  lemma PermutedDistinct<T>(a: seq<T>, b: seq<T>)
    requires Distinct(a) && multiset(a) == multiset(b)
    ensures Distinct(b)
  {
    forall i, j | 0 <= i < j < |b| ensures b[i] != b[j] {
      DistinctCount(a, b[i]);
      assert b == b[..j] + [b[j]] + b[j + 1..];
      assert b[i] in multiset(b[..j]) by {
        assert b[..j][i] == b[i];
      }
    }
  }
}
