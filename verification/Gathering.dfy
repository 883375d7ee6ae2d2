/** Concatenating what each element of a list contributes, seen as a multiset: the order of the list
    does not matter. */
module Gathering {

  ghost function Gather<T, U>(xs: seq<T>, f: T -> seq<U>): multiset<U> {
    if xs == [] then multiset{} else multiset(f(xs[0])) + Gather(xs[1..], f)
  }

  lemma {:induction false} GatherSnoc<T, U>(xs: seq<T>, x: T, f: T -> seq<U>)
    ensures Gather(xs + [x], f) == Gather(xs, f) + multiset(f(x))
    decreases |xs|
  {
    if xs == [] {
      assert xs + [x] == [x] && [x][1..] == [];
    } else {
      assert (xs + [x])[0] == xs[0] && (xs + [x])[1..] == xs[1..] + [x];
      GatherSnoc(xs[1..], x, f);
    }
  }

  lemma {:induction false} GatherRemove<T, U>(xs: seq<T>, k: nat, f: T -> seq<U>)
    requires k < |xs|
    ensures Gather(xs, f) == Gather(xs[..k] + xs[k + 1..], f) + multiset(f(xs[k]))
    decreases k
  {
    var rest := xs[..k] + xs[k + 1..];
    if k == 0 {
      assert rest == xs[1..];
    } else {
      GatherRemove(xs[1..], k - 1, f);
      assert rest[0] == xs[0] && rest[1..] == xs[1..][..k - 1] + xs[1..][k..];
      assert Gather(rest, f) == multiset(f(xs[0])) + Gather(rest[1..], f);
    }
  }

  lemma DropOne<T>(b: seq<T>, k: nat)
    requires k < |b|
    ensures multiset(b) - multiset{b[k]} == multiset(b[..k] + b[k + 1..])
  {
    assert b == b[..k] + [b[k]] + b[k + 1..];
    assert multiset(b) == multiset(b[..k] + b[k + 1..]) + multiset{b[k]};
  }

  lemma WithoutOne<T>(a: seq<T>, b: seq<T>, k: nat)
    requires a != [] && k < |b| && b[k] == a[0] && multiset(a) == multiset(b)
    ensures multiset(a[1..]) == multiset(b[..k] + b[k + 1..])
  {
    assert a == [a[0]] + a[1..];
    assert multiset(a) - multiset{a[0]} == multiset(a[1..]);
    DropOne(b, k);
  }

  lemma {:induction false} GatherPermutation<T, U>(a: seq<T>, b: seq<T>, f: T -> seq<U>)
    requires multiset(a) == multiset(b)
    ensures Gather(a, f) == Gather(b, f)
    decreases |a|
  {
    if a == [] {
      assert |multiset(b)| == 0;
    } else {
      assert a[0] in multiset(b);
      var k :| 0 <= k < |b| && b[k] == a[0];
      WithoutOne(a, b, k);
      GatherPermutation(a[1..], b[..k] + b[k + 1..], f);
      GatherRemove(b, k, f);
    }
  }

  lemma {:induction false} GatherSum<T, U>(xs: seq<T>, f: T -> seq<U>, g: T -> seq<U>, h: T -> seq<U>)
    requires forall x :: x in xs ==> f(x) == g(x) + h(x)
    ensures Gather(xs, f) == Gather(xs, g) + Gather(xs, h)
    decreases |xs|
  {
    if xs != [] {
      assert xs[0] in xs;
      GatherSum(xs[1..], f, g, h);
      assert multiset(f(xs[0])) == multiset(g(xs[0])) + multiset(h(xs[0]));
    }
  }

  lemma {:induction false} GatherLess<T, U>(xs: seq<T>, f: T -> seq<U>, g: T -> seq<U>)
    requires forall x :: x in xs ==> multiset(f(x)) <= multiset(g(x))
    ensures Gather(xs, f) <= Gather(xs, g)
    decreases |xs|
  {
    if xs != [] {
      assert xs[0] in xs;
      GatherLess(xs[1..], f, g);
    }
  }

  ghost predicate NoRepeats<T>(xs: seq<T>) { forall i, j :: 0 <= i < j < |xs| ==> xs[i] != xs[j] }

  lemma {:induction false} CountOnce<T>(xs: seq<T>, x: T)
    requires NoRepeats(xs)
    ensures multiset(xs)[x] == if x in xs then 1 else 0
    decreases |xs|
  {
    if xs != [] {
      assert xs == [xs[0]] + xs[1..];
      CountOnce(xs[1..], x);
      assert multiset(xs) == multiset{xs[0]} + multiset(xs[1..]);
      assert xs[0] !in xs[1..];
    }
  }

  /** Two enumerations of the same values are permutations of each other. */
  lemma SameValues<T>(a: seq<T>, b: seq<T>)
    requires NoRepeats(a) && NoRepeats(b) && forall x :: x in a <==> x in b
    ensures multiset(a) == multiset(b)
  {
    forall x ensures multiset(a)[x] == multiset(b)[x] {
      CountOnce(a, x);
      CountOnce(b, x);
    }
  }
}
