/** Generic sequence helpers: the list comprehensions, `filter` and
    first-match loops that the Python code writes inline. */
module Seqs {
  import opened Wrappers

  /** Python's `list(filter(p, xs))`: the order-preserving subsequence of
      the elements that satisfy `p`. */
  function Filter<T>(p: T -> bool, xs: seq<T>): (r: seq<T>)
    ensures |r| <= |xs|
    ensures forall i :: 0 <= i < |r| ==> p(r[i])
    ensures forall x :: x in xs && p(x) ==> x in r
    ensures forall x :: x in r ==> x in xs
    ensures multiset(r) <= multiset(xs)
  {
    if |xs| == 0 then []
    else
      var rest := Filter(p, xs[1..]);
      assert xs == [xs[0]] + xs[1..];
      assert multiset(xs) == multiset{xs[0]} + multiset(xs[1..]);
      if p(xs[0]) then [xs[0]] + rest else rest
  }

  /** Filtering distributes over concatenation: the relative order of the
      kept elements is the order of the input. */
  lemma {:induction false} FilterConcat<T>(p: T -> bool, a: seq<T>, b: seq<T>)
    ensures Filter(p, a + b) == Filter(p, a) + Filter(p, b)
    decreases |a|
  {
    if |a| == 0 {
      assert a + b == b;
    } else {
      assert (a + b)[1..] == a[1..] + b;
      FilterConcat(p, a[1..], b);
    }
  }

  /** Filtering keeps exactly the elements that satisfy `p`, each as often
      as it occurs in the input. */
  lemma {:induction false} FilterMultiset<T>(p: T -> bool, xs: seq<T>, x: T)
    ensures multiset(Filter(p, xs))[x] == if p(x) then multiset(xs)[x] else 0
    decreases |xs|
  {
    if |xs| != 0 {
      assert xs == [xs[0]] + xs[1..];
      FilterMultiset(p, xs[1..], x);
    }
  }

  /** The number of elements of `xs` that satisfy `p`. */
  function Count<T>(p: T -> bool, xs: seq<T>): (n: nat)
    ensures n <= |xs|
  {
    if |xs| == 0 then 0
    else (if p(xs[0]) then 1 else 0) + Count(p, xs[1..])
  }

  /** A filter is exactly as long as the number of elements it keeps. */
  lemma {:induction false} FilterLength<T>(p: T -> bool, xs: seq<T>)
    ensures |Filter(p, xs)| == Count(p, xs)
    decreases |xs|
  {
    if |xs| != 0 {
      FilterLength(p, xs[1..]);
    }
  }

  /** The index of the first element satisfying `p`: the `for ...: if ...:
      return` loop of the Python code. */
  function Find<T>(p: T -> bool, xs: seq<T>): (r: Option<nat>)
    ensures r.Some? ==> r.value < |xs| && p(xs[r.value])
    ensures r.Some? ==> forall j :: 0 <= j < r.value ==> !p(xs[j])
    ensures r.None? <==> forall j :: 0 <= j < |xs| ==> !p(xs[j])
  {
    if |xs| == 0 then None
    else if p(xs[0]) then Some(0)
    else
      match Find(p, xs[1..])
      case None => None
      case Some(i) => Some(i + 1)
  }

  /** Counting distributes over concatenation. */
  lemma {:induction false} CountConcat<T>(p: T -> bool, a: seq<T>, b: seq<T>)
    ensures Count(p, a + b) == Count(p, a) + Count(p, b)
    decreases |a|
  {
    if |a| == 0 {
      assert a + b == b;
    } else {
      assert (a + b)[1..] == a[1..] + b;
      CountConcat(p, a[1..], b);
    }
  }

  /** A one-element sequence counts 1 exactly when its element satisfies `p`. */
  lemma CountSingleton<T>(p: T -> bool, x: T)
    ensures Count(p, [x]) == if p(x) then 1 else 0
  {
    assert [x][1..] == [];
  }

  /** Nothing is counted in a sequence with no element satisfying `p`. */
  lemma {:induction false} CountNone<T>(p: T -> bool, xs: seq<T>)
    requires forall x :: x in xs ==> !p(x)
    ensures Count(p, xs) == 0
    decreases |xs|
  {
    if |xs| != 0 {
      assert xs[0] in xs;
      assert forall x :: x in xs[1..] ==> x in xs;
      CountNone(p, xs[1..]);
    }
  }
}
