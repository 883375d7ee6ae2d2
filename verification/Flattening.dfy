/** Lists built by appending what each element of another list contributes. */
module Flattening {

  function Flat<T, U>(xs: seq<T>, g: T -> seq<U>): seq<U> {
    if xs == [] then [] else Flat(xs[..|xs| - 1], g) + g(xs[|xs| - 1])
  }

  lemma FlatSnoc<T, U>(xs: seq<T>, i: nat, g: T -> seq<U>)
    requires i < |xs|
    ensures Flat(xs[..i + 1], g) == Flat(xs[..i], g) + g(xs[i])
  {
    assert xs[..i + 1][..i] == xs[..i];
  }

  lemma {:induction false} FlatNone<T, U>(xs: seq<T>, g: T -> seq<U>)
    requires forall x :: x in xs ==> g(x) == []
    ensures Flat(xs, g) == []
    decreases |xs|
  {
    if xs != [] {
      FlatNone(xs[..|xs| - 1], g);
    }
  }

  lemma {:induction false} FlatHas<T, U>(xs: seq<T>, i: nat, y: U, g: T -> seq<U>)
    requires i < |xs| && y in g(xs[i])
    ensures y in Flat(xs, g)
    decreases |xs|
  {
    if i < |xs| - 1 {
      FlatHas(xs[..|xs| - 1], i, y, g);
    }
  }

  predicate Sorted(at: seq<nat>) { forall j, k :: 0 <= j < k < |at| ==> at[j] <= at[k] }

  /** Element k of the result comes from element at[k] of the list. */
  ghost predicate Sources<T, U>(at: seq<nat>, ys: seq<U>, xs: seq<T>, g: T -> seq<U>) {
    |at| == |ys| && forall k :: 0 <= k < |at| ==> at[k] < |xs| && ys[k] in g(xs[at[k]])
  }

  lemma SortedMore(at: seq<nat>, n: nat, times: nat)
    requires Sorted(at) && forall k :: 0 <= k < |at| ==> at[k] <= n
    ensures Sorted(at + seq(times, i => n))
  {
  }

  lemma SourcesSnoc<T, U>(at: seq<nat>, ys: seq<U>, xs: seq<T>, g: T -> seq<U>)
    requires xs != [] && Sources(at, ys, xs[..|xs| - 1], g)
    ensures Sources(at + seq(|g(xs[|xs| - 1])|, i => |xs| - 1), ys + g(xs[|xs| - 1]), xs, g)
  {
    var n := |xs| - 1;
    forall k | 0 <= k < |at| ensures at[k] < n && ys[k] in g(xs[at[k]]) {
      assert xs[..n][at[k]] == xs[at[k]];
    }
  }

  lemma {:induction false} FlatSources<T, U>(xs: seq<T>, g: T -> seq<U>) returns (at: seq<nat>)
    ensures Sources(at, Flat(xs, g), xs, g) && Sorted(at)
    decreases |xs|
  {
    if xs == [] {
      at := [];
    } else {
      var n := |xs| - 1;
      var before := FlatSources(xs[..n], g);
      SourcesSnoc(before, Flat(xs[..n], g), xs, g);
      SortedMore(before, n, |g(xs[n])|);
      at := before + seq(|g(xs[n])|, i => n);
    }
  }
}
