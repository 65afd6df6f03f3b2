/** Order-preserving list operations shared by the forms and the settings
    store: the JavaScript `filter`, `map`, `slice(0, n)` and the index-based
    `filter((_, i) => i !== k)` / `map((x, i) => i === k ? v : x)` idioms. */
module Seqs {

  /** `xs.filter(p)`. */
  function Filter<T>(xs: seq<T>, p: T -> bool): (r: seq<T>)
    ensures |r| <= |xs|
    ensures forall k :: 0 <= k < |r| ==> p(r[k]) && r[k] in xs
    ensures (forall k :: 0 <= k < |xs| ==> p(xs[k])) ==> r == xs
    decreases |xs|
  {
    if xs == [] then []
    else if p(xs[0]) then [xs[0]] + Filter(xs[1..], p)
    else Filter(xs[1..], p)
  }

  /** An element survives `Filter` exactly when it was there and satisfies `p`. */
  lemma {:induction false} FilterMembership<T>(xs: seq<T>, p: T -> bool, x: T)
    ensures x in Filter(xs, p) <==> x in xs && p(x)
    decreases |xs|
  {
    if xs != [] {
      FilterMembership(xs[1..], p, x);
      assert xs == [xs[0]] + xs[1..];
    }
  }

  /** `Filter` distributes over concatenation, so it keeps the relative order. */
  lemma {:induction false} FilterConcat<T>(xs: seq<T>, ys: seq<T>, p: T -> bool)
    ensures Filter(xs + ys, p) == Filter(xs, p) + Filter(ys, p)
    decreases |xs|
  {
    if xs == [] {
      assert xs + ys == ys;
    } else {
      assert (xs + ys)[1..] == xs[1..] + ys;
      FilterConcat(xs[1..], ys, p);
    }
  }

  /** `xs.slice(0, n)`. */
  function Take<T>(xs: seq<T>, n: nat): (r: seq<T>)
    ensures |r| == if |xs| <= n then |xs| else n
    ensures r <= xs
  {
    if |xs| <= n then xs else xs[..n]
  }

  /** `xs.filter((_, i) => i !== k)`: drops the element at index `k`, if any. */
  function RemoveAt<T>(xs: seq<T>, k: int): (r: seq<T>)
    ensures 0 <= k < |xs| ==> r == xs[..k] + xs[k + 1..]
    ensures !(0 <= k < |xs|) ==> r == xs
    decreases |xs|
  {
    if xs == [] then []
    else if k == 0 then xs[1..]
    else [xs[0]] + RemoveAt(xs[1..], k - 1)
  }

  /** `xs.map((x, i) => i === k ? v : x)`. */
  function UpdateAt<T>(xs: seq<T>, k: int, v: T): (r: seq<T>)
    ensures |r| == |xs|
    ensures forall i :: 0 <= i < |xs| ==> r[i] == (if i == k then v else xs[i])
    ensures 0 <= k < |xs| ==> r == xs[..k] + [v] + xs[k + 1..]
    ensures !(0 <= k < |xs|) ==> r == xs
  {
    var r := seq(|xs|, i requires 0 <= i < |xs| => if i == k then v else xs[i]);
    assert 0 <= k < |xs| ==> r == xs[..k] + [v] + xs[k + 1..];
    r
  }

  /** `xs.map(x => p(x) ? f(x) : x)`: rewrites the matching elements only. */
  function MapWhere<T>(xs: seq<T>, p: T -> bool, f: T -> T): (r: seq<T>)
    ensures |r| == |xs|
    ensures forall i :: 0 <= i < |xs| ==> r[i] == (if p(xs[i]) then f(xs[i]) else xs[i])
    ensures (forall i :: 0 <= i < |xs| ==> !p(xs[i])) ==> r == xs
    ensures forall x :: x in r ==> x in xs || exists i :: 0 <= i < |xs| && p(xs[i]) && x == f(xs[i])
  {
    seq(|xs|, i requires 0 <= i < |xs| => if p(xs[i]) then f(xs[i]) else xs[i])
  }

  /** The index of `xs.find(p)`: the first matching element, or -1. */
  function FindIndex<T>(xs: seq<T>, p: T -> bool): (r: int)
    ensures -1 <= r < |xs|
    ensures r >= 0 ==> p(xs[r])
    ensures forall i :: 0 <= i < |xs| && (r < 0 || i < r) ==> !p(xs[i])
    decreases |xs|
  {
    if xs == [] then -1
    else if p(xs[0]) then 0
    else var j := FindIndex(xs[1..], p); if j < 0 then -1 else j + 1
  }

  /** `[lo, lo + 1, ..., lo + n - 1]`. */
  function Range(lo: nat, n: nat): (r: seq<nat>)
    ensures |r| == n
    ensures forall i :: 0 <= i < n ==> r[i] == lo + i
  {
    seq(n, i requires 0 <= i < n => lo + i)
  }
}
