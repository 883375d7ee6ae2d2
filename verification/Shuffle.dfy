/** Random selection: the in-place shuffle and the first `count` elements of its result. The random
    numbers are an explicit choice sequence: entry i is drawn from 0..i. */
module Shuffle {
  import opened Gathering

  /** One number for every index, each within its range; entry 0 is never drawn and can only be 0. */
  ghost predicate Choice(rs: seq<nat>, n: nat) {
    |rs| == n && forall i :: 0 <= i < n ==> rs[i] <= i
  }

  /** The cells before the last one, after the last one was swapped with cell k. */
  function Front<T>(s: seq<T>, k: nat): (r: seq<T>)
    requires k < |s|
    ensures |r| == |s| - 1
    ensures forall i :: 0 <= i < |r| ==> r[i] == if i == k then s[|s| - 1] else s[i]
  {
    s[k := s[|s| - 1]][..|s| - 1]
  }

  /** The whole loop: the last cell is fixed first, then the cells before it. */
  function Shuffled<T>(s: seq<T>, rs: seq<nat>): (r: seq<T>)
    requires Choice(rs, |s|)
    ensures |r| == |s|
    decreases |s|
  {
    var n := |s|;
    if n <= 1 then s else Shuffled(Front(s, rs[n - 1]), rs[..n - 1]) + [s[rs[n - 1]]]
  }

  method SwapCells<T>(a: array<T>, i: nat, k: nat)
    requires k <= i < a.Length
    modifies a
    ensures a[..i] == Front(old(a[..i + 1]), k)
    ensures a[i..] == [old(a[k])] + old(a[i + 1..])
  {
    a[i], a[k] := a[k], a[i];
  }

  lemma OneStep<T>(s: seq<T>, rs: seq<nat>, rest: seq<T>)
    requires |s| > 1 && Choice(rs, |s|)
    ensures var i := |s| - 1;
            Shuffled(Front(s, rs[i]), rs[..i]) + ([s[rs[i]]] + rest) == Shuffled(s, rs) + rest
  {
  }

  /** The first i cells are still to be shuffled; the result will be `goal`. */
  ghost predicate Going<T>(cells: seq<T>, i: nat, rs: seq<nat>, goal: seq<T>) {
    i <= |cells| && i <= |rs| && Choice(rs[..i], i) && Shuffled(cells[..i], rs[..i]) + cells[i..] == goal
  }

  lemma GoOn<T>(cells: seq<T>, next: seq<T>, i: nat, rs: seq<nat>, goal: seq<T>)
    requires Going(cells, i + 1, rs, goal) && 0 < i < |next| && rs[i] <= i
    requires next[..i] == Front(cells[..i + 1], rs[i]) && next[i..] == [cells[rs[i]]] + cells[i + 1..]
    ensures Going(next, i, rs, goal)
  {
    assert rs[..i + 1][..i] == rs[..i];
    OneStep(cells[..i + 1], rs[..i + 1], cells[i + 1..]);
  }

  method ShuffleInPlace<T>(a: array<T>, rs: seq<nat>)
    requires Choice(rs, a.Length)
    modifies a
    ensures a[..] == Shuffled(old(a[..]), rs)
  {
    ghost var goal := Shuffled(a[..], rs);
    var i: nat := a.Length;
    assert a[..][..i] == a[..] && rs[..i] == rs && goal + a[..][i..] == goal;
    while i > 1
      invariant i <= a.Length && Going(a[..], i, rs, goal)
    {
      i := i - 1;
      ghost var cells := a[..];
      assert cells[..i + 1] == a[..i + 1] && cells[i + 1..] == a[i + 1..];
      SwapCells(a, i, rs[i]);
      assert a[..][..i] == a[..i] && a[..][i..] == a[i..];
      GoOn(cells, a[..], i, rs, goal);
    }
    assert a[..][..i] + a[..][i..] == a[..];
  }

  lemma FrontMultiset<T>(s: seq<T>, k: nat)
    requires k < |s|
    ensures multiset(Front(s, k)) + multiset{s[k]} == multiset(s)
  {
    var n := |s| - 1;
    assert s == s[..n] + [s[n]];
    if k < n {
      var f := Front(s, k);
      assert f == s[..k] + [s[n]] + s[k + 1..n];
      assert s[..n] == s[..k] + [s[k]] + s[k + 1..n];
    } else {
      assert Front(s, k) == s[..n];
    }
  }

  /** Whatever is drawn, the result is a permutation. */
  lemma {:induction false} ShufflePermutes<T>(s: seq<T>, rs: seq<nat>)
    requires Choice(rs, |s|)
    ensures multiset(Shuffled(s, rs)) == multiset(s)
    decreases |s|
  {
    var n := |s|;
    if n > 1 {
      ShufflePermutes(Front(s, rs[n - 1]), rs[..n - 1]);
      FrontMultiset(s, rs[n - 1]);
    }
  }

  /** The last cell is drawn first, from all of them. */
  lemma LastDrawn<T>(s: seq<T>, rs: seq<nat>)
    requires Choice(rs, |s|) && s != []
    ensures Shuffled(s, rs)[|s| - 1] == s[rs[|s| - 1]]
  {
  }

  lemma FrontDistinct<T>(s: seq<T>, k: nat)
    requires k < |s| && NoRepeats(s)
    ensures NoRepeats(Front(s, k))
  {
  }

  lemma {:induction false} Injective<T>(s: seq<T>, rs: seq<nat>, qs: seq<nat>)
    requires Choice(rs, |s|) && Choice(qs, |s|) && NoRepeats(s)
    requires Shuffled(s, rs) == Shuffled(s, qs)
    ensures rs == qs
    decreases |s|
  {
    var n := |s|;
    if n > 1 {
      var k := rs[n - 1];
      assert Shuffled(s, rs)[n - 1] == s[k] && Shuffled(s, qs)[n - 1] == s[qs[n - 1]];
      assert qs[n - 1] == k;
      assert Shuffled(s, rs)[..n - 1] == Shuffled(Front(s, k), rs[..n - 1]);
      assert Shuffled(s, qs)[..n - 1] == Shuffled(Front(s, k), qs[..n - 1]);
      FrontDistinct(s, k);
      Injective(Front(s, k), rs[..n - 1], qs[..n - 1]);
      assert rs == rs[..n - 1] + [k] && qs == qs[..n - 1] + [k];
    }
  }

  lemma Position<T>(s: seq<T>, x: T) returns (k: nat)
    requires x in multiset(s)
    ensures k < |s| && s[k] == x
  {
    k :| 0 <= k < |s| && s[k] == x;
  }

  lemma FrontPermutes<T>(s: seq<T>, t: seq<T>, k: nat)
    requires t != [] && multiset(s) == multiset(t) && k < |s| && s[k] == t[|t| - 1]
    ensures multiset(Front(s, k)) == multiset(t[..|t| - 1])
  {
    var n := |t| - 1;
    FrontMultiset(s, k);
    assert t == t[..n] + [t[n]];
    assert multiset(t) == multiset(t[..n]) + multiset{t[n]};
    assert multiset(s) - multiset{s[k]} == multiset(Front(s, k));
    assert multiset(t) - multiset{t[n]} == multiset(t[..n]);
  }

  lemma SameLength<T>(s: seq<T>, t: seq<T>)
    requires multiset(s) == multiset(t)
    ensures |s| == |t|
  {
    assert |s| == |multiset(s)|;
  }

  lemma DrawLast<T>(s: seq<T>, front: seq<nat>, k: nat)
    requires k < |s| && Choice(front, |s| - 1)
    ensures Choice(front + [k], |s|)
    ensures Shuffled(s, front + [k]) == Shuffled(Front(s, k), front) + [s[k]]
  {
    assert (front + [k])[..|s| - 1] == front;
    if |s| == 1 {
      assert s == [] + [s[0]] && Shuffled(Front(s, k), front) == [];
    }
  }

  /** Where the last element of the goal is to be drawn from. */
  lemma Choose<T>(s: seq<T>, t: seq<T>) returns (k: nat)
    requires t != [] && multiset(s) == multiset(t)
    ensures k < |s| && s[k] == t[|t| - 1]
    ensures multiset(Front(s, k)) == multiset(t[..|t| - 1])
  {
    assert t[|t| - 1] in multiset(t);
    k := Position(s, t[|t| - 1]);
    FrontPermutes(s, t, k);
  }

  lemma FrontAndLast<T>(t: seq<T>)
    requires t != []
    ensures t == t[..|t| - 1] + [t[|t| - 1]]
  {
  }

  lemma {:induction false} Surjective<T>(s: seq<T>, t: seq<T>) returns (rs: seq<nat>)
    requires multiset(s) == multiset(t)
    ensures Choice(rs, |s|) && Shuffled(s, rs) == t
    decreases |s|
  {
    SameLength(s, t);
    if s == [] {
      rs := [];
    } else {
      var k := Choose(s, t);
      var front := Surjective(Front(s, k), t[..|t| - 1]);
      rs := front + [k];
      DrawLast(s, front, k);
      FrontAndLast(t);
    }
  }

  /** On distinct elements every ordering comes from exactly one choice sequence, so uniform choices
      give uniform orderings. */
  lemma ShuffleBijective<T>(s: seq<T>, t: seq<T>) returns (rs: seq<nat>)
    requires NoRepeats(s) && multiset(s) == multiset(t)
    ensures Choice(rs, |s|) && Shuffled(s, rs) == t
    ensures forall qs :: Choice(qs, |s|) && Shuffled(s, qs) == t ==> qs == rs
  {
    rs := Surjective(s, t);
    forall qs | Choice(qs, |s|) && Shuffled(s, qs) == t ensures qs == rs {
      Injective(s, qs, rs);
    }
  }
}
