/** What grouped selection guarantees, for every order in which the groups are visited. */
module SelectionTheorems {
  import opened Pods
  import opened Counting
  import opened Shuffle
  import opened Gathering
  import opened Flattening
  import opened Selection

  ghost function UnderOf(pods: seq<Pod>, keys: seq<string>): string -> seq<Pod> {
    (v: string) => Under(pods, keys, v)
  }

  ghost function FiledOf(p: Pod, keys: seq<string>): string -> seq<Pod> { (v: string) => Filed(p, keys, v) }

  ghost function Only(p: Pod, value: string): string -> seq<Pod> { (v: string) => if v == value then [p] else [] }

  lemma {:induction false} GatherNone(order: seq<string>, p: Pod, value: string)
    requires value !in order
    ensures Gather(order, Only(p, value)) == multiset{}
    decreases |order|
  {
    if order != [] {
      assert order[0] in order;
      GatherNone(order[1..], p, value);
    }
  }

  lemma {:induction false} GatherOnly(order: seq<string>, p: Pod, value: string)
    requires NoRepeats(order) && value in order
    ensures Gather(order, Only(p, value)) == multiset{p}
    decreases |order|
  {
    if order[0] == value {
      assert value !in order[1..];
      GatherNone(order[1..], p, value);
      assert Only(p, value)(order[0]) == [p];
    } else {
      GatherOnly(order[1..], p, value);
    }
  }

  lemma {:induction false} GatherEmpty(order: seq<string>, g: string -> seq<Pod>)
    requires forall v :: v in order ==> g(v) == []
    ensures Gather(order, g) == multiset{}
    decreases |order|
  {
    if order != [] {
      assert order[0] in order;
      GatherEmpty(order[1..], g);
    }
  }

  lemma GatherLast(order: seq<string>, p: Pod, keys: seq<string>)
    requires keys != []
    ensures var k := |keys| - 1;
            Gather(order, FiledOf(p, keys))
              == Gather(order, FiledOf(p, keys[..k])) + Gather(order, Only(p, LabelOf(p, keys[k])))
  {
    var k := |keys| - 1;
    GatherSum(order, FiledOf(p, keys), FiledOf(p, keys[..k]), Only(p, LabelOf(p, keys[k])));
  }

  /** One pod is filed once for every key. */
  lemma {:induction false} GatherFiled(order: seq<string>, p: Pod, keys: seq<string>)
    requires NoRepeats(order) && forall j :: 0 <= j < |keys| ==> LabelOf(p, keys[j]) in order
    ensures Gather(order, FiledOf(p, keys)) == multiset{}[p := |keys|]
    decreases |keys|
  {
    if keys == [] {
      GatherEmpty(order, FiledOf(p, keys));
    } else {
      var k := |keys| - 1;
      GatherFiled(order, p, keys[..k]);
      GatherOnly(order, p, LabelOf(p, keys[k]));
      GatherLast(order, p, keys);
    }
  }

  /** Every group label of every pod is enumerated. */
  ghost predicate Covers(order: seq<string>, pods: seq<Pod>, keys: seq<string>) {
    NoRepeats(order) && forall i, j :: 0 <= i < |pods| && 0 <= j < |keys| ==> LabelOf(pods[i], keys[j]) in order
  }

  lemma UnderSnoc(front: seq<Pod>, last: Pod, keys: seq<string>, value: string)
    ensures Under(front + [last], keys, value) == Under(front, keys, value) + Filed(last, keys, value)
  {
    assert (front + [last])[..|front|] == front;
  }

  lemma {:induction false} UnderNonempty(pods: seq<Pod>, keys: seq<string>, i: nat, value: string)
    requires i < |pods| && Filed(pods[i], keys, value) != []
    ensures Under(pods, keys, value) != []
    decreases |pods|
  {
    var front, last := pods[..|pods| - 1], pods[|pods| - 1];
    assert pods == front + [last];
    UnderSnoc(front, last, keys, value);
    if i < |front| {
      UnderNonempty(front, keys, i, value);
    }
  }

  lemma {:induction false} FiledNonempty(p: Pod, keys: seq<string>, j: nat)
    requires j < |keys|
    ensures Filed(p, keys, LabelOf(p, keys[j])) != []
    decreases |keys|
  {
    if j < |keys| - 1 {
      FiledNonempty(p, keys[..|keys| - 1], j);
    }
  }

  lemma OrderCovers(order: seq<string>, pods: seq<Pod>, keys: seq<string>)
    requires IsOrder(order, pods, keys)
    ensures Covers(order, pods, keys)
  {
    forall i, j | 0 <= i < |pods| && 0 <= j < |keys| ensures LabelOf(pods[i], keys[j]) in order {
      FiledNonempty(pods[i], keys, j);
      UnderNonempty(pods, keys, i, LabelOf(pods[i], keys[j]));
    }
  }

  lemma {:induction false} GatherUnder(order: seq<string>, pods: seq<Pod>, keys: seq<string>, p: Pod)
    requires Covers(order, pods, keys)
    ensures Gather(order, UnderOf(pods, keys))[p] == |keys| * multiset(pods)[p]
    decreases |pods|
  {
    if pods == [] {
      GatherEmpty(order, UnderOf(pods, keys));
    } else {
      var k := |pods| - 1;
      var front, last := pods[..k], pods[k];
      CoversParts(order, pods, keys);
      GatherUnder(order, front, keys, p);
      GatherFiled(order, last, keys);
      GatherSum(order, UnderOf(pods, keys), UnderOf(front, keys), FiledOf(last, keys));
      CountLast(pods, p);
      Times(|keys|, multiset(front)[p], if p == last then 1 else 0);
    }
  }

  lemma CoversParts(order: seq<string>, pods: seq<Pod>, keys: seq<string>)
    requires Covers(order, pods, keys) && pods != []
    ensures Covers(order, pods[..|pods| - 1], keys)
    ensures forall j :: 0 <= j < |keys| ==> LabelOf(pods[|pods| - 1], keys[j]) in order
  {
    var front := pods[..|pods| - 1];
    forall i, j | 0 <= i < |front| && 0 <= j < |keys| ensures LabelOf(front[i], keys[j]) in order {
      assert front[i] == pods[i];
    }
  }

  lemma CountLast(pods: seq<Pod>, p: Pod)
    requires pods != []
    ensures multiset(pods)[p] == multiset(pods[..|pods| - 1])[p] + (if p == pods[|pods| - 1] then 1 else 0)
  {
    assert pods == pods[..|pods| - 1] + [pods[|pods| - 1]];
  }

  lemma Times(k: nat, a: nat, b: nat)
    ensures k * (a + b) == k * a + k * b
  {
  }

  /** With k keys every pod is filed exactly k times, counted with its occurrences in the input; with one
      key the groups therefore partition the input. */
  lemma GroupsFileAll(order: seq<string>, pods: seq<Pod>, keys: seq<string>)
    requires IsOrder(order, pods, keys)
    ensures forall p :: Gather(order, UnderOf(pods, keys))[p] == |keys| * multiset(pods)[p]
    ensures |keys| == 1 ==> Gather(order, UnderOf(pods, keys)) == multiset(pods)
  {
    OrderCovers(order, pods, keys);
    forall p ensures Gather(order, UnderOf(pods, keys))[p] == |keys| * multiset(pods)[p] {
      GatherUnder(order, pods, keys, p);
    }
  }

  lemma {:induction false} FlatGather(order: seq<string>, g: string -> seq<Pod>)
    ensures multiset(Flat(order, g)) == Gather(order, g)
    decreases |order|
  {
    if order != [] {
      var k := |order| - 1;
      FlatGather(order[..k], g);
      GatherSnoc(order[..k], order[k], g);
      assert order[..k] + [order[k]] == order;
    }
  }

  lemma ChosenWithin(list: seq<Pod>, f: Flags, rs: seq<nat>)
    requires Choice(rs, |list|)
    ensures multiset(Chosen(list, f, rs)) <= multiset(list)
  {
    ShufflePermutes(list, rs);
    var from := if f.random then Shuffled(list, rs) else list;
    var c := CountFor(list, f);
    if c.Counted? && 0 <= c.value <= |list| {
      assert from == from[..c.value] + from[c.value..];
      assert multiset(from) == multiset(from[..c.value]) + multiset(from[c.value..]);
    }
  }

  /** No pod is chosen more often than it was filed: at most k times its occurrences with k keys, at most
      its occurrences with one. */
  lemma ChosenBounded(order: seq<string>, pods: seq<Pod>, f: Flags, draws: string -> seq<nat>, p: Pod)
    requires Draws(draws, pods, f.keys) && IsOrder(order, pods, f.keys)
    ensures multiset(Flat(order, ChosenOf(pods, f, draws)))[p] <= |f.keys| * multiset(pods)[p]
  {
    var g := ChosenOf(pods, f, draws);
    FlatGather(order, g);
    forall v | v in order ensures multiset(g(v)) <= multiset(UnderOf(pods, f.keys)(v)) {
      ChosenWithin(Under(pods, f.keys, v), f, draws(v));
    }
    GatherLess(order, g, UnderOf(pods, f.keys));
    OrderCovers(order, pods, f.keys);
    GatherUnder(order, pods, f.keys, p);
  }

  /** The order in which the map is visited does not change which pods are chosen, only their order. */
  lemma OrderIrrelevant(a: seq<string>, b: seq<string>, pods: seq<Pod>, f: Flags, draws: string -> seq<nat>)
    requires Draws(draws, pods, f.keys) && IsOrder(a, pods, f.keys) && IsOrder(b, pods, f.keys)
    ensures multiset(Flat(a, ChosenOf(pods, f, draws))) == multiset(Flat(b, ChosenOf(pods, f, draws)))
  {
    var g := ChosenOf(pods, f, draws);
    SameValues(a, b);
    GatherPermutation(a, b, g);
    FlatGather(a, g);
    FlatGather(b, g);
  }

  ghost function Sizes(order: seq<string>, pods: seq<Pod>, keys: seq<string>): seq<nat> {
    if order == [] then []
    else Sizes(order[..|order| - 1], pods, keys) + [|Under(pods, keys, order[|order| - 1])|]
  }

  lemma {:induction false} SumSnoc(ns: seq<nat>, n: nat, count: Flag, percent: Flag)
    requires Positive(count) && Positive(percent)
    ensures SumCounts(ns + [n], count, percent) == SumCounts(ns, count, percent) + GetResourceCount(n, count, percent).value
    decreases |ns|
  {
    if ns == [] {
      assert ns + [n] == [n] && [n][1..] == [];
    } else {
      assert (ns + [n])[0] == ns[0] && (ns + [n])[1..] == ns[1..] + [n];
      SumSnoc(ns[1..], n, count, percent);
    }
  }

  /** The result is as long as the counts of the groups add up to. */
  lemma {:induction false} ChosenSize(order: seq<string>, pods: seq<Pod>, f: Flags, draws: string -> seq<nat>)
    requires Draws(draws, pods, f.keys) && Positive(f.count) && Positive(f.percent)
    ensures |Flat(order, ChosenOf(pods, f, draws))| == SumCounts(Sizes(order, pods, f.keys), f.count, f.percent)
    decreases |order|
  {
    if order != [] {
      var k := |order| - 1;
      var g := ChosenOf(pods, f, draws);
      ChosenSize(order[..k], pods, f, draws);
      SumSnoc(Sizes(order[..k], pods, f.keys), |Under(pods, f.keys, order[k])|, f.count, f.percent);
      ChosenCount(Under(pods, f.keys, order[k]), f, draws(order[k]));
      assert |Flat(order, g)| == |Flat(order[..k], g)| + |g(order[k])|;
    }
  }

  lemma ChosenCount(list: seq<Pod>, f: Flags, rs: seq<nat>)
    requires Choice(rs, |list|) && Positive(f.count) && Positive(f.percent)
    ensures |Chosen(list, f, rs)| == GetResourceCount(|list|, f.count, f.percent).value
  {
    if list != [] {
      CountIsLeast(|list|, f.count, f.percent);
    }
  }

  /** What one group contributes: its first count pods, in the order they were filed or as shuffled. */
  lemma ChosenIs(list: seq<Pod>, f: Flags, rs: seq<nat>)
    requires Choice(rs, |list|)
    ensures var c := GetResourceCount(|list|, f.count, f.percent);
            c.Counted? && c.value >= 0 ==>
              && c.value <= |list|
              && (!f.random ==> Chosen(list, f, rs) == list[..c.value])
              && (f.random ==> Chosen(list, f, rs) == Shuffled(list, rs)[..c.value])
  {
    CountUsable(|list|, f.count, f.percent);
  }

  /** The keys that have this value among the labels of the pod; a missing label reads as the empty text. */
  ghost function KeysWith(p: Pod, keys: seq<string>, value: string): set<nat> {
    set j | 0 <= j < |keys| && (if keys[j] in p.labels then p.labels[keys[j]] else "") == value
  }

  lemma KeysSnoc(p: Pod, keys: seq<string>, value: string)
    requires keys != []
    ensures var n := |keys| - 1;
            KeysWith(p, keys, value) ==
              KeysWith(p, keys[..n], value)
              + (if (if keys[n] in p.labels then p.labels[keys[n]] else "") == value then {n} else {})
    ensures |keys| - 1 !in KeysWith(p, keys[..|keys| - 1], value)
  {
  }

  lemma {:induction false} FiledCount(p: Pod, keys: seq<string>, value: string, q: Pod)
    ensures multiset(Filed(p, keys, value))[q] == if q == p then |KeysWith(p, keys, value)| else 0
    decreases |keys|
  {
    if keys == [] {
      assert KeysWith(p, keys, value) == {};
    } else {
      FiledCount(p, keys[..|keys| - 1], value, q);
      KeysSnoc(p, keys, value);
    }
  }

  lemma UnderLast(pods: seq<Pod>, keys: seq<string>, value: string, p: Pod)
    requires pods != []
    ensures var n := |pods| - 1;
            multiset(Under(pods, keys, value))[p]
              == multiset(Under(pods[..n], keys, value))[p] + multiset(Filed(pods[n], keys, value))[p]
  {
    var n := |pods| - 1;
    assert Under(pods, keys, value) == Under(pods[..n], keys, value) + Filed(pods[n], keys, value);
  }

  /** The group of a label value holds every pod as often as it occurs, once for each key that has the
      value on it. */
  lemma {:induction false} GroupCount(pods: seq<Pod>, keys: seq<string>, value: string, p: Pod)
    ensures multiset(Under(pods, keys, value))[p] == |KeysWith(p, keys, value)| * multiset(pods)[p]
    decreases |pods|
  {
    if pods == [] {
      assert Under(pods, keys, value) == [];
    } else {
      var n := |pods| - 1;
      GroupCount(pods[..n], keys, value, p);
      FiledCount(pods[n], keys, value, p);
      CountLast(pods, p);
      UnderLast(pods, keys, value, p);
      Times(|KeysWith(p, keys, value)|, multiset(pods[..n])[p], if p == pods[n] then 1 else 0);
    }
  }

  function FiledIn(keys: seq<string>, value: string): Pod -> seq<Pod> { (p: Pod) => Filed(p, keys, value) }

  lemma {:induction false} UnderIsFlat(pods: seq<Pod>, keys: seq<string>, value: string)
    ensures Under(pods, keys, value) == Flat(pods, FiledIn(keys, value))
    decreases |pods|
  {
    if pods != [] {
      UnderIsFlat(pods[..|pods| - 1], keys, value);
    }
  }

  lemma {:induction false} FiledItself(p: Pod, keys: seq<string>, value: string, q: Pod)
    ensures q in Filed(p, keys, value) ==> q == p
    decreases |keys|
  {
    if keys != [] {
      FiledItself(p, keys[..|keys| - 1], value, q);
    }
  }

  /** A group follows the order of the pods. */
  lemma GroupInOrder(pods: seq<Pod>, keys: seq<string>, value: string) returns (at: seq<nat>)
    ensures |at| == |Under(pods, keys, value)| && Sorted(at)
    ensures forall k :: 0 <= k < |at| ==> at[k] < |pods| && Under(pods, keys, value)[k] == pods[at[k]]
  {
    at := FlatSources(pods, FiledIn(keys, value));
    UnderIsFlat(pods, keys, value);
    forall k | 0 <= k < |at| ensures Under(pods, keys, value)[k] == pods[at[k]] {
      FiledItself(pods[at[k]], keys, value, Under(pods, keys, value)[k]);
    }
  }
}
