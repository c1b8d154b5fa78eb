/** Sequence helpers. A Python list comprehension `[f(x) for x in xs if p(x)]`
    is modelled as `Map(f, Filter(p, xs))`; the lemmas here say that both
    operations respect concatenation and multiset equality, which is what
    the order-independence results of the scan are built from. */
module Seqs {

  /** The indices 0 .. n-1, in order. */
  function Range(n: nat): (r: seq<nat>)
    ensures |r| == n
    ensures forall i :: 0 <= i < n ==> r[i] == i
  {
    seq(n, i => i)
  }

  /** A number occurs among the indices 0 .. n-1 exactly when it is below n. */
  lemma InRange(n: nat, x: nat)
    ensures x in multiset(Range(n)) <==> x < n
  {
    if x < n {
      assert Range(n)[x] == x;
    }
  }

  function Map<X, Y>(f: X -> Y, xs: seq<X>): (r: seq<Y>)
    ensures |r| == |xs|
    ensures forall i :: 0 <= i < |xs| ==> r[i] == f(xs[i])
  {
    if xs == [] then [] else [f(xs[0])] + Map(f, xs[1..])
  }

  function Filter<X>(p: X -> bool, xs: seq<X>): (r: seq<X>)
    ensures |r| <= |xs|
  {
    if xs == [] then [] else (if p(xs[0]) then [xs[0]] else []) + Filter(p, xs[1..])
  }

  lemma FilterSingle<X>(p: X -> bool, x: X)
    ensures Filter(p, [x]) == if p(x) then [x] else []
  {
    assert [x][1..] == [];
  }

  lemma MapAppend<X, Y>(f: X -> Y, a: seq<X>, b: seq<X>)
    ensures Map(f, a + b) == Map(f, a) + Map(f, b)
  {
  }

  lemma {:induction false} FilterAppend<X>(p: X -> bool, a: seq<X>, b: seq<X>)
    ensures Filter(p, a + b) == Filter(p, a) + Filter(p, b)
  {
    if a == [] {
      assert a + b == b;
    } else {
      var head := if p(a[0]) then [a[0]] else [];
      assert (a + b)[0] == a[0];
      assert (a + b)[1..] == a[1..] + b;
      assert Filter(p, a + b) == head + Filter(p, a[1..] + b);
      FilterAppend(p, a[1..], b);
      assert Filter(p, a) == head + Filter(p, a[1..]);
    }
  }

  /** Filtering keeps an element exactly when the predicate holds of it. */
  lemma {:induction false} FilterMembers<X>(p: X -> bool, xs: seq<X>, x: X)
    ensures x in Filter(p, xs) <==> x in xs && p(x)
  {
    if xs != [] {
      FilterMembers(p, xs[1..], x);
      assert xs == [xs[0]] + xs[1..];
    }
  }

  /** Splitting `ys` around an occurrence of `x` leaves the multiset without `x`. */
  lemma RemoveAt<X>(ys: seq<X>, j: nat)
    requires j < |ys|
    ensures ys == ys[..j] + [ys[j]] + ys[j + 1..]
    ensures multiset(ys[..j] + ys[j + 1..]) == multiset(ys) - multiset{ys[j]}
  {
    assert ys == ys[..j] + [ys[j]] + ys[j + 1..];
  }

  lemma MultisetMiddle<X>(a: seq<X>, x: X, b: seq<X>)
    ensures multiset(a + [x] + b) == multiset(a + b) + multiset{x}
  {
  }

  lemma MapMiddle<X, Y>(f: X -> Y, a: seq<X>, y: X, b: seq<X>)
    ensures multiset(Map(f, a + [y] + b)) == multiset(Map(f, a + b)) + multiset{f(y)}
  {
    MapAppend(f, a + [y], b);
    MapAppend(f, a, [y]);
    MapAppend(f, a, b);
    assert Map(f, [y]) == [f(y)];
    MultisetMiddle(Map(f, a), f(y), Map(f, b));
  }

  /** Taking one element out of the middle of a mapped sequence. */
  lemma MapRemoveAt<X, Y>(f: X -> Y, ys: seq<X>, j: nat)
    requires j < |ys|
    ensures multiset(Map(f, ys)) == multiset(Map(f, ys[..j] + ys[j + 1..])) + multiset{f(ys[j])}
  {
    RemoveAt(ys, j);
    MapMiddle(f, ys[..j], ys[j], ys[j + 1..]);
  }

  /** Taking one element out of the middle of a filtered sequence. */
  lemma FilterMiddle<X>(p: X -> bool, a: seq<X>, y: X, b: seq<X>)
    ensures p(y) ==> multiset(Filter(p, a + [y] + b)) == multiset(Filter(p, a + b)) + multiset{y}
    ensures !p(y) ==> multiset(Filter(p, a + [y] + b)) == multiset(Filter(p, a + b))
  {
    FilterAppend(p, a + [y], b);
    FilterAppend(p, a, [y]);
    FilterAppend(p, a, b);
    FilterSingle(p, y);
    var fa, fb := Filter(p, a), Filter(p, b);
    if p(y) {
      MultisetMiddle(fa, y, fb);
    } else {
      assert fa + [] + fb == fa + fb;
    }
  }

  /** Some position of `ys` holds `x`; the rest of `ys` has the rest of the multiset. */
  lemma FindIn<X>(xs: seq<X>, ys: seq<X>) returns (j: nat)
    requires xs != [] && multiset(xs) == multiset(ys)
    ensures j < |ys| && ys[j] == xs[0]
    ensures multiset(xs[1..]) == multiset(ys[..j] + ys[j + 1..])
  {
    assert xs[0] in multiset(ys);
    j :| 0 <= j < |ys| && ys[j] == xs[0];
    RemoveAt(ys, j);
    assert xs == [xs[0]] + xs[1..];
  }

  /** Mapping respects multiset equality: reordering the input reorders the output. */
  lemma {:induction false} MapMultiset<X, Y>(f: X -> Y, xs: seq<X>, ys: seq<X>)
    requires multiset(xs) == multiset(ys)
    ensures multiset(Map(f, xs)) == multiset(Map(f, ys))
    decreases |xs|
  {
    if xs == [] {
      assert |ys| == |multiset(ys)| == 0;
    } else {
      var j := FindIn(xs, ys);
      MapMultiset(f, xs[1..], ys[..j] + ys[j + 1..]);
      MapRemoveAt(f, ys, j);
      assert Map(f, xs) == [f(xs[0])] + Map(f, xs[1..]);
    }
  }

  /** Filtering respects multiset equality: reordering the input reorders the output. */
  lemma {:induction false} FilterMultiset<X>(p: X -> bool, xs: seq<X>, ys: seq<X>)
    requires multiset(xs) == multiset(ys)
    ensures multiset(Filter(p, xs)) == multiset(Filter(p, ys))
    decreases |xs|
  {
    if xs == [] {
      assert |ys| == |multiset(ys)| == 0;
    } else {
      var j := FindIn(xs, ys);
      FilterMultiset(p, xs[1..], ys[..j] + ys[j + 1..]);
      RemoveAt(ys, j);
      FilterMiddle(p, ys[..j], ys[j], ys[j + 1..]);
      assert Filter(p, xs) == (if p(xs[0]) then [xs[0]] else []) + Filter(p, xs[1..]);
    }
  }

  /** Picking the elements of `xs` at the positions listed in `order`. */
  function Pick<X>(xs: seq<X>, order: seq<nat>): (r: seq<X>)
    requires forall k :: 0 <= k < |order| ==> order[k] < |xs|
    ensures |r| == |order|
    ensures forall k :: 0 <= k < |order| ==> r[k] == xs[order[k]]
  {
    seq(|order|, k requires 0 <= k < |order| => xs[order[k]])
  }

  /** `order` lists every position 0 .. n-1 exactly once. */
  ghost predicate IsPermutationOf(order: seq<nat>, n: nat)
  {
    multiset(order) == multiset(Range(n))
  }

  lemma PermutationBounds(order: seq<nat>, n: nat)
    requires IsPermutationOf(order, n)
    ensures |order| == n
    ensures forall k :: 0 <= k < |order| ==> order[k] < n
  {
    assert |order| == |multiset(order)| == |multiset(Range(n))| == n;
    forall k | 0 <= k < |order|
      ensures order[k] < n
    {
      assert order[k] in multiset(order);
      InRange(n, order[k]);
    }
  }

  /** Visiting the positions of `xs` in any order that lists each exactly
      once yields a rearrangement of `xs`. */
  lemma PickPermutation<X>(xs: seq<X>, order: seq<nat>)
    requires IsPermutationOf(order, |xs|)
    ensures forall k :: 0 <= k < |order| ==> order[k] < |xs|
    ensures multiset(Pick(xs, order)) == multiset(xs)
  {
    PermutationBounds(order, |xs|);
    if xs != [] {
      var at := (i: nat) => if i < |xs| then xs[i] else xs[0];
      MapMultiset(at, order, Range(|xs|));
      assert Map(at, order) == Pick(xs, order);
      assert Map(at, Range(|xs|)) == xs;
    }
  }
}
