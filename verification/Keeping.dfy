/** Lists built by a loop that appends something for some elements of another list and skips the rest. */
module Keeping {
  import opened BladeTypes

  /** What f gives for the elements of a list, in order, where it gives anything. */
  function Kept<T, U>(xs: seq<T>, f: T -> Option<U>): seq<U> {
    if xs == [] then []
    else
      var n := |xs| - 1;
      Kept(xs[..n], f) + (if f(xs[n]).Some? then [f(xs[n]).value] else [])
  }

  lemma KeptSnoc<T, U>(xs: seq<T>, i: nat, f: T -> Option<U>)
    requires i < |xs|
    ensures Kept(xs[..i + 1], f) == Kept(xs[..i], f) + (if f(xs[i]).Some? then [f(xs[i]).value] else [])
  {
    assert xs[..i + 1][..i] == xs[..i];
  }

  ghost predicate Places<T, U>(at: seq<nat>, xs: seq<T>, f: T -> Option<U>, list: seq<U>) {
    |at| == |list| && forall k :: 0 <= k < |at| ==> at[k] < |xs| && f(xs[at[k]]) == Some(list[k])
  }

  ghost predicate Rising(at: seq<nat>) { forall j, k :: 0 <= j < k < |at| ==> at[j] < at[k] }

  ghost predicate Covers<T, U>(at: seq<nat>, xs: seq<T>, f: T -> Option<U>) {
    forall i :: 0 <= i < |xs| && f(xs[i]).Some? ==> i in at
  }

  ghost predicate Positions<T, U>(at: seq<nat>, xs: seq<T>, f: T -> Option<U>) {
    Places(at, xs, f, Kept(xs, f)) && Rising(at) && Covers(at, xs, f)
  }

  function Grow<T, U>(at: seq<nat>, xs: seq<T>, f: T -> Option<U>): seq<nat>
    requires xs != []
  {
    if f(xs[|xs| - 1]).Some? then at + [|xs| - 1] else at
  }

  lemma CoversSnoc<T, U>(at: seq<nat>, xs: seq<T>, f: T -> Option<U>)
    requires xs != [] && Covers(at, xs[..|xs| - 1], f)
    ensures Covers(Grow(at, xs, f), xs, f)
  {
    assert forall i :: 0 <= i < |xs| - 1 ==> xs[..|xs| - 1][i] == xs[i];
  }

  lemma RisingSnoc(at: seq<nat>, n: nat)
    requires Rising(at) && forall k :: 0 <= k < |at| ==> at[k] < n
    ensures Rising(at + [n])
  {
  }

  lemma PlacesLonger<T, U>(at: seq<nat>, xs: seq<T>, f: T -> Option<U>, list: seq<U>)
    requires xs != [] && Places(at, xs[..|xs| - 1], f, list)
    ensures Places(at, xs, f, list) && forall k :: 0 <= k < |at| ==> at[k] < |xs| - 1
  {
    assert forall k :: 0 <= k < |at| ==> xs[..|xs| - 1][at[k]] == xs[at[k]];
  }

  lemma PlacesSnoc<T, U>(at: seq<nat>, xs: seq<T>, f: T -> Option<U>, list: seq<U>)
    requires xs != [] && Places(at, xs, f, list) && f(xs[|xs| - 1]).Some?
    ensures Places(at + [|xs| - 1], xs, f, list + [f(xs[|xs| - 1]).value])
  {
  }

  lemma PositionsSnoc<T, U>(at: seq<nat>, xs: seq<T>, f: T -> Option<U>)
    requires xs != [] && Positions(at, xs[..|xs| - 1], f)
    ensures Positions(Grow(at, xs, f), xs, f)
  {
    var n := |xs| - 1;
    PlacesLonger(at, xs, f, Kept(xs[..n], f));
    CoversSnoc(at, xs, f);
    if f(xs[n]).Some? {
      RisingSnoc(at, n);
      PlacesSnoc(at, xs, f, Kept(xs[..n], f));
    } else {
      assert Kept(xs, f) == Kept(xs[..n], f);
    }
  }

  lemma {:induction false} KeptEach<T, U>(xs: seq<T>, f: T -> Option<U>) returns (at: seq<nat>)
    ensures Positions(at, xs, f)
    decreases |xs|
  {
    if xs == [] {
      at := [];
    } else {
      var before := KeptEach(xs[..|xs| - 1], f);
      PositionsSnoc(before, xs, f);
      at := Grow(before, xs, f);
    }
  }

  /** The result holds just what f gives. */
  lemma KeptHas<T, U>(xs: seq<T>, f: T -> Option<U>, y: U)
    ensures y in Kept(xs, f) <==> exists i :: 0 <= i < |xs| && f(xs[i]) == Some(y)
  {
    var at := KeptEach(xs, f);
    if y in Kept(xs, f) {
      var k :| 0 <= k < |at| && Kept(xs, f)[k] == y;
      assert f(xs[at[k]]) == Some(y);
    }
    if i :| 0 <= i < |xs| && f(xs[i]) == Some(y) {
      var k :| 0 <= k < |at| && at[k] == i;
      assert Kept(xs, f)[k] == y;
    }
  }
}
