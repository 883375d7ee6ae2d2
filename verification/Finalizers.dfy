/** `contains` and `remove` of the controller: a search loop, and a removal that shifts the
    array in place while it still ranges over the slice header it started with. */
module Finalizers {
  import opened BladeTypes

  /** Reference meaning of removal: the list without `s`, in order. */
  function Without(list: seq<string>, s: string): (r: seq<string>)
    ensures s !in r
    ensures forall x :: x in r <==> x in list && x != s
  {
    if list == [] then []
    else if list[0] == s then Without(list[1..], s)
    else [list[0]] + Without(list[1..], s)
  }

  /** The array after `append(list[:i], list[i+1:]...)` on a slice of length `len`. */
  function Shifted(mem: seq<string>, len: nat, i: nat): (r: seq<string>)
    requires i < len <= |mem|
    ensures |r| == |mem|
  {
    mem[..i] + mem[i + 1..len] + mem[len - 1..]
  }

  /** What `remove` does: `mem` is the backing array, `len` the length of the current slice.
      None is the run-time panic of slicing past the current length. */
  function Sweep(mem: seq<string>, len: nat, i: nat, s: string): Option<seq<string>>
    requires len <= |mem| && i <= |mem|
    decreases |mem| - i
  {
    if i == |mem| then Some(mem[..len])
    else if mem[i] != s then Sweep(mem, len, i + 1, s)
    else if i >= len then None
    else Sweep(Shifted(mem, len, i), len - 1, i + 1, s)
  }

  function Remove(list: seq<string>, s: string): Option<seq<string>> {
    Sweep(list, |list|, 0, s)
  }

  method Contains(list: seq<string>, s: string) returns (found: bool)
    ensures found <==> s in list
  {
    for i := 0 to |list|
      invariant s !in list[..i]
    {
      if list[i] == s {
        return true;
      }
    }
    return false;
  }

  /** Copies cells `i + 1..len` one to the left. */
  method ShiftLeft(a: array<string>, len: nat, i: nat)
    requires i < len <= a.Length
    modifies a
    ensures a[..] == Shifted(old(a[..]), len, i)
  {
    var j := i;
    while j + 1 < len
      invariant i <= j < len
      invariant forall k :: 0 <= k < a.Length ==> a[k] == old(a[if i <= k < j then k + 1 else k])
    {
      a[j] := a[j + 1];
      j := j + 1;
    }
  }

  /** The in-place loop. On success the first `n.value` cells are the result. */
  method RemoveInPlace(a: array<string>, s: string) returns (n: Option<nat>)
    modifies a
    ensures n.Some? <==> Remove(old(a[..]), s).Some?
    ensures n.Some? ==> n.value <= a.Length && a[..n.value] == Remove(old(a[..]), s).value
  {
    var len: nat := a.Length;
    var i := 0;
    while i < a.Length
      invariant 0 <= i <= a.Length && len <= a.Length
      invariant Sweep(a[..], len, i, s) == Remove(old(a[..]), s)
    {
      if a[i] == s {
        if i >= len {
          return None;
        }
        ShiftLeft(a, len, i);
        len := len - 1;
      }
      i := i + 1;
    }
    assert a[..][..len] == a[..len];
    return Some(len);
  }

  lemma {:induction false} SweepClean(mem: seq<string>, len: nat, i: nat, s: string)
    requires len <= |mem| && i <= |mem|
    requires s !in mem[i..]
    ensures Sweep(mem, len, i, s) == Some(mem[..len])
    decreases |mem| - i
  {
    if i < |mem| {
      assert mem[i..] == [mem[i]] + mem[i + 1..];
      SweepClean(mem, len, i + 1, s);
    }
  }

  // ---- The loop without the array ----

  /** The rest of the sweep after k removals: `rest` is still to be looked at, `last` was the last entry
      of the list. A removal skips the entry that moves into the gap; behind the slice the array holds k
      stale copies of the last entry. */
  function Skipping(rest: seq<string>, k: nat, last: string, s: string): Option<seq<string>> {
    if rest == [] then (if k > 0 && last == s then None else Some([]))
    else if rest[0] != s then Before(rest[0], Skipping(rest[1..], k, last, s))
    else if |rest| == 1 then (if k > 0 then None else Some([]))
    else Before(rest[1], Skipping(rest[2..], k + 1, last, s))
  }

  function Before(x: string, r: Option<seq<string>>): Option<seq<string>> {
    if r.None? then None else Some([x] + r.value)
  }

  function After(out: seq<string>, r: Option<seq<string>>): Option<seq<string>> {
    if r.None? then None else Some(out + r.value)
  }

  function Copies(k: nat, x: string): (r: seq<string>)
    ensures |r| == k && forall i :: 0 <= i < k ==> r[i] == x
  {
    seq(k, i => x)
  }

  lemma BeforeAfter(out: seq<string>, x: string, r: Option<seq<string>>)
    ensures After(out, Before(x, r)) == After(out + [x], r)
  {
    if r.Some? {
      assert out + ([x] + r.value) == out + [x] + r.value;
    }
  }

  lemma SweepStale(mem: seq<string>, out: seq<string>, k: nat, last: string, s: string)
    requires mem == out + Copies(k, last)
    ensures Sweep(mem, |out|, |out|, s) == After(out, Skipping([], k, last, s))
  {
    assert mem[..|out|] == out == out + [];
    if k == 0 {
      assert |mem| == |out|;
    } else if last == s {
      assert mem[|out|] == Copies(k, last)[0];
    } else {
      assert mem[|out|..] == Copies(k, last);
      SweepClean(mem, |out|, |out|, s);
    }
  }

  lemma SweepLast(mem: seq<string>, out: seq<string>, k: nat, s: string)
    requires mem == out + [s] + Copies(k, s)
    ensures Sweep(mem, |out| + 1, |out|, s) == After(out, Skipping([s], k, s, s))
  {
    var i := |out|;
    assert mem[i] == s && Shifted(mem, i + 1, i) == mem;
    assert Sweep(mem, i + 1, i, s) == Sweep(mem, i, i + 1, s);
    if k > 0 {
      assert mem[i + 1] == Copies(k, s)[0];
    } else {
      assert |mem| == i + 1;
      assert mem[..i] == out == out + [];
      assert Sweep(mem, i, i + 1, s) == Some(mem[..i]);
    }
  }

  lemma ShiftOne(mem: seq<string>, out: seq<string>, rest: seq<string>, k: nat, s: string)
    requires |rest| >= 2 && mem == out + rest + Copies(k, rest[|rest| - 1])
    ensures var last := rest[|rest| - 1];
            Shifted(mem, |out| + |rest|, |out|) == (out + [rest[1]]) + rest[2..] + Copies(k + 1, last)
  {
    var last := rest[|rest| - 1];
    var i, len := |out|, |out| + |rest|;
    assert mem[..i] == out;
    assert mem[i + 1..len] == [rest[1]] + rest[2..];
    assert mem[len - 1..] == Copies(k + 1, last);
  }

  lemma {:induction false} SweepIsSkipping(mem: seq<string>, out: seq<string>, rest: seq<string>, k: nat, last: string, s: string)
    requires mem == out + rest + Copies(k, last) && (rest != [] ==> rest[|rest| - 1] == last)
    ensures Sweep(mem, |out| + |rest|, |out|, s) == After(out, Skipping(rest, k, last, s))
    decreases |rest|
  {
    if rest == [] {
      assert mem == out + Copies(k, last);
      SweepStale(mem, out, k, last, s);
    } else if rest[0] != s {
      assert mem[|out|] == rest[0];
      assert mem == (out + [rest[0]]) + rest[1..] + Copies(k, last);
      SweepIsSkipping(mem, out + [rest[0]], rest[1..], k, last, s);
      BeforeAfter(out, rest[0], Skipping(rest[1..], k, last, s));
    } else if |rest| == 1 {
      assert rest == [s];
      SweepLast(mem, out, k, s);
    } else {
      assert mem[|out|] == rest[0] == s;
      ShiftOne(mem, out, rest, k, s);
      var next := Shifted(mem, |out| + |rest|, |out|);
      SweepIsSkipping(next, out + [rest[1]], rest[2..], k + 1, last, s);
      BeforeAfter(out, rest[1], Skipping(rest[2..], k + 1, last, s));
    }
  }

  // ---- When it is right ----

  predicate NoneAdjacent(list: seq<string>, s: string) {
    forall i :: 0 <= i < |list| - 1 ==> !(list[i] == s && list[i + 1] == s)
  }

  /** What a caller can check before the call. */
  predicate Removable(list: seq<string>, s: string) {
    multiset(list)[s] <= 1 || (NoneAdjacent(list, s) && list[|list| - 1] != s)
  }

  lemma CountFirst(list: seq<string>, s: string)
    requires list != []
    ensures multiset(list)[s] == (if list[0] == s then 1 else 0) + multiset(list[1..])[s]
  {
    assert list == [list[0]] + list[1..];
  }

  lemma NoCopies(list: seq<string>, s: string)
    requires multiset(list)[s] == 0
    ensures s !in list && NoneAdjacent(list, s)
  {
    assert s !in multiset(list);
  }

  lemma AdjacentFirst(list: seq<string>, s: string)
    requires |list| >= 2
    ensures NoneAdjacent(list, s) <==> !(list[0] == s && list[1] == s) && NoneAdjacent(list[1..], s)
  {
    if NoneAdjacent(list, s) {
      forall i | 0 <= i < |list[1..]| - 1 ensures !(list[1..][i] == s && list[1..][i + 1] == s) {
        assert !(list[i + 1] == s && list[i + 2] == s);
      }
    } else if !(list[0] == s && list[1] == s) {
      var i :| 0 <= i < |list| - 1 && list[i] == s && list[i + 1] == s;
      assert list[1..][i - 1] == s && list[1..][i] == s;
    }
  }

  /** The premise of the exact condition for a rest with k removals before it. */
  predicate Clean(rest: seq<string>, k: nat, last: string, s: string) {
    (k == 0 && multiset(rest)[s] <= 1) || (NoneAdjacent(rest, s) && last != s)
  }

  lemma CleanKept(rest: seq<string>, k: nat, last: string, s: string)
    requires rest != [] && rest[0] != s && (|rest| == 1 ==> rest[0] == last)
    ensures Clean(rest, k, last, s) <==> Clean(rest[1..], k, last, s)
  {
    CountFirst(rest, s);
    if |rest| >= 2 {
      AdjacentFirst(rest, s);
    }
  }

  lemma CleanCaught(rest: seq<string>, k: nat, last: string, s: string)
    requires |rest| >= 2 && rest[0] == s && rest[1] != s && rest[|rest| - 1] == last
    ensures Clean(rest, k, last, s) <==> Clean(rest[2..], k + 1, last, s)
  {
    var tail := rest[1..];
    CountFirst(rest, s);
    CountFirst(tail, s);
    assert tail[1..] == rest[2..];
    AdjacentFirst(rest, s);
    if |rest| > 2 {
      AdjacentFirst(tail, s);
    }
    if k == 0 && multiset(rest)[s] <= 1 {
      NoCopies(tail, s);
      assert last in tail;
      NoCopies(rest[2..], s);
    }
  }

  lemma CleanNever(rest: seq<string>, k: nat, last: string, s: string)
    requires |rest| >= 2 && rest[0] == s && rest[1] == s
    ensures !Clean(rest, k, last, s)
  {
    CountFirst(rest, s);
    CountFirst(rest[1..], s);
  }

  lemma {:induction false} SkippingExact(rest: seq<string>, k: nat, last: string, s: string)
    requires rest != [] ==> rest[|rest| - 1] == last
    ensures Skipping(rest, k, last, s) == Some(Without(rest, s)) <==> Clean(rest, k, last, s)
    decreases |rest|
  {
    if rest == [] {
      assert Without(rest, s) == [];
    } else if rest[0] != s {
      CleanKept(rest, k, last, s);
      SkippingExact(rest[1..], k, last, s);
      SameTail(rest[0], Skipping(rest[1..], k, last, s), Without(rest[1..], s));
    } else if |rest| == 1 {
      assert Without(rest[1..], s) == [];
      CountFirst(rest, s);
    } else if rest[1] == s {
      CleanNever(rest, k, last, s);
      assert s !in Without(rest, s);
    } else {
      CleanCaught(rest, k, last, s);
      SkippingExact(rest[2..], k + 1, last, s);
      assert rest[1..][1..] == rest[2..];
      SameTail(rest[1], Skipping(rest[2..], k + 1, last, s), Without(rest[2..], s));
    }
  }

  lemma SameTail(x: string, r: Option<seq<string>>, t: seq<string>)
    ensures Before(x, r) == Some([x] + t) <==> r == Some(t)
  {
    if r.Some? && [x] + r.value == [x] + t {
      assert ([x] + r.value)[1..] == r.value && ([x] + t)[1..] == t;
    }
  }

  /** The removal neither panics nor leaves a copy behind exactly if there is at most one copy, or no two
      are adjacent and the last entry is none. */
  lemma RemoveExact(list: seq<string>, s: string)
    ensures Remove(list, s) == Some(Without(list, s)) <==> Removable(list, s)
  {
    var last := if list == [] then "" else list[|list| - 1];
    assert list == [] + list + Copies(0, last);
    SweepIsSkipping(list, [], list, 0, last, s);
    SkippingExact(list, 0, last, s);
    var r := Skipping(list, 0, last, s);
    assert r.Some? ==> [] + r.value == r.value;
  }

  /** With at most one copy the shifting loop is always right. */
  lemma RemoveOnce(list: seq<string>, s: string)
    requires multiset(list)[s] <= 1
    ensures Remove(list, s) == Some(Without(list, s))
  {
    RemoveExact(list, s);
  }

  /** Both ways of going wrong: a panic, and a copy left behind. */
  lemma RemoveTwiceFails(s: string, t: string)
    requires s != t
    ensures Remove([s, s], s) == None
    ensures Remove([s, s, t], s) == Some([s, t]) != Some(Without([s, s, t], s))
  {
    assert Shifted([s, s], 2, 0) == [s, s];
    assert Sweep([s, s], 1, 1, s) == None;
    assert Shifted([s, s, t], 3, 0) == [s, t, t];
    SweepClean([s, t, t], 2, 1, s);
    assert [s, t, t][..2] == [s, t];
    assert s in [s, t];
  }
}
