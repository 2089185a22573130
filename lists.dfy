/** Kotlin collection operations the application relies on: `filter`,
    `take` and `distinctBy`, over sequences. */
module Lists {

  /** Concatenation regrouped. */
  lemma Assoc<T>(a: seq<T>, b: seq<T>, c: seq<T>)
    ensures (a + b) + c == a + (b + c)
  {
  }

  /** `filter`: the elements satisfying `p`, in order. */
  function Filter<T(!new)>(xs: seq<T>, p: T -> bool): (r: seq<T>)
    ensures |r| <= |xs|
    ensures forall x :: x in r <==> x in xs && p(x)
    decreases |xs|
  {
    if |xs| == 0 then []
    else Filter(xs[..|xs| - 1], p) + (if p(xs[|xs| - 1]) then [xs[|xs| - 1]] else [])
  }

  lemma FilterSnoc<T(!new)>(xs: seq<T>, x: T, p: T -> bool)
    ensures Filter(xs + [x], p) == Filter(xs, p) + (if p(x) then [x] else [])
  {
    assert (xs + [x])[..|xs|] == xs;
  }

  /** Filtering a list without repetitions gives one without repetitions. */
  lemma {:induction false} FilterDistinct<T(!new)>(xs: seq<T>, p: T -> bool)
    requires forall i, j :: 0 <= i < j < |xs| ==> xs[i] != xs[j]
    ensures forall i, j :: 0 <= i < j < |Filter(xs, p)| ==> Filter(xs, p)[i] != Filter(xs, p)[j]
    decreases |xs|
  {
    if |xs| > 0 {
      var init, last := xs[..|xs| - 1], xs[|xs| - 1];
      FilterDistinct(init, p);
      assert forall i :: 0 <= i < |init| ==> init[i] == xs[i];
      assert last !in init;
      assert Filter(xs, p) == Filter(init, p) + (if p(last) then [last] else []);
    }
  }

  /** `Filter` keeps the order: what precedes an element in the result
      precedes it in the input. */
  lemma {:induction false} FilterOrder<T(!new)>(xs: seq<T>, p: T -> bool, i: int, j: int)
    requires 0 <= i < j < |Filter(xs, p)|
    ensures exists a, b :: 0 <= a < b < |xs| && xs[a] == Filter(xs, p)[i] && xs[b] == Filter(xs, p)[j]
    decreases |xs|
  {
    var init, last := xs[..|xs| - 1], xs[|xs| - 1];
    var r := Filter(xs, p);
    assert r == Filter(init, p) + (if p(last) then [last] else []);
    if j < |Filter(init, p)| {
      FilterOrder(init, p, i, j);
      var a, b :| 0 <= a < b < |init| && init[a] == Filter(init, p)[i] && init[b] == Filter(init, p)[j];
      assert xs[a] == r[i] && xs[b] == r[j];
    } else {
      assert r[j] == last;
      assert r[i] in Filter(init, p);
      var a :| 0 <= a < |init| && init[a] == r[i];
      assert xs[a] == r[i] && xs[|xs| - 1] == r[j];
    }
  }

  /** `take(n)`: the first `n` elements, or all of them when there are fewer. */
  function Take<T>(xs: seq<T>, n: nat): (r: seq<T>)
    ensures |r| == if n < |xs| then n else |xs|
    ensures forall i :: 0 <= i < |r| ==> r[i] == xs[i]
  {
    if n < |xs| then xs[..n] else xs
  }

  /** The keys `key` gives the elements of `xs`. */
  function KeysOf<T(==), K(==)>(xs: seq<T>, key: T -> K): set<K> {
    set x | x in xs :: key(x)
  }

  /** `distinctBy(key)`: each element whose key no earlier element has. */
  function DistinctBy<T(==), K(==)>(xs: seq<T>, key: T -> K): (r: seq<T>)
    ensures forall x :: x in r ==> x in xs
    decreases |xs|
  {
    if |xs| == 0 then []
    else
      var init := xs[..|xs| - 1];
      var x := xs[|xs| - 1];
      DistinctBy(init, key) + (if key(x) in KeysOf(init, key) then [] else [x])
  }

  /** `distinctBy` keeps exactly one element per key: the result's keys are
      pairwise different and cover every key of the input. */
  lemma {:induction false} DistinctByKeys<T, K>(xs: seq<T>, key: T -> K)
    ensures forall i, j :: 0 <= i < j < |DistinctBy(xs, key)| ==> key(DistinctBy(xs, key)[i]) != key(DistinctBy(xs, key)[j])
    ensures KeysOf(DistinctBy(xs, key), key) == KeysOf(xs, key)
    decreases |xs|
  {
    if |xs| > 0 {
      var init, x := xs[..|xs| - 1], xs[|xs| - 1];
      var d := DistinctBy(init, key);
      DistinctByKeys(init, key);
      assert xs == init + [x];
      var r := DistinctBy(xs, key);
      assert r == d + (if key(x) in KeysOf(init, key) then [] else [x]);
      assert KeysOf(xs, key) == KeysOf(init, key) + {key(x)};
    }
  }
  /** What `f` gives for the first element of `xs` for which it gives
      something: the value of a loop over `xs` that stops at the first
      non-empty answer. */
  function FirstNonEmpty<T, U>(xs: seq<T>, f: T -> seq<U>): seq<U>
    decreases |xs|
  {
    if |xs| == 0 then []
    else if f(xs[0]) != [] then f(xs[0])
    else FirstNonEmpty(xs[1..], f)
  }

  /** The answer is empty exactly when every element gives nothing, and
      otherwise it is the answer of an element after which nothing was asked. */
  lemma {:induction false} FirstNonEmptyMeaning<T, U>(xs: seq<T>, f: T -> seq<U>)
    ensures FirstNonEmpty(xs, f) == [] <==> forall i :: 0 <= i < |xs| ==> f(xs[i]) == []
    ensures FirstNonEmpty(xs, f) != [] ==>
      exists k :: 0 <= k < |xs| && FirstNonEmpty(xs, f) == f(xs[k]) && forall j :: 0 <= j < k ==> f(xs[j]) == []
    decreases |xs|
  {
    if |xs| > 0 && f(xs[0]) == [] {
      FirstNonEmptyMeaning(xs[1..], f);
      assert forall i :: 1 <= i < |xs| ==> xs[i] == xs[1..][i - 1];
      if FirstNonEmpty(xs, f) != [] {
        var k :| 0 <= k < |xs[1..]| && FirstNonEmpty(xs[1..], f) == f(xs[1..][k]) && forall j :: 0 <= j < k ==> f(xs[1..][j]) == [];
        assert forall j :: 0 <= j < k + 1 ==> f(xs[j]) == [] by {
          forall j | 0 <= j < k + 1 ensures f(xs[j]) == [] {
            if j > 0 { assert xs[j] == xs[1..][j - 1]; }
          }
        }
        assert xs[k + 1] == xs[1..][k];
      }
    }
  }
}
