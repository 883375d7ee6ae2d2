/** filterByOtherFlags: choosing a number of pods, over the whole list or group by group. */
module Selection {
  import opened Pods
  import opened Counting
  import opened Shuffle
  import opened Gathering
  import opened Flattening

  function LabelOf(p: Pod, key: string): string { if key in p.labels then p.labels[key] else "" }

  /** The group list of one label value: every pod once for every key that has this value on it,
      in pod order. */
  function Under(pods: seq<Pod>, keys: seq<string>, value: string): seq<Pod> {
    if pods == [] then [] else Under(pods[..|pods| - 1], keys, value) + Filed(pods[|pods| - 1], keys, value)
  }

  function Filed(p: Pod, keys: seq<string>, value: string): seq<Pod> {
    if keys == [] then []
    else Filed(p, keys[..|keys| - 1], value) + (if LabelOf(p, keys[|keys| - 1]) == value then [p] else [])
  }

  function Lookup(groups: map<string, seq<Pod>>, value: string): seq<Pod> {
    if value in groups then groups[value] else []
  }

  ghost predicate Grouped(groups: map<string, seq<Pod>>, pods: seq<Pod>, keys: seq<string>) {
    && (forall value :: value in groups ==> groups[value] != [])
    && (forall value :: Lookup(groups, value) == Under(pods, keys, value))
  }

  method FileOnce(groups: map<string, seq<Pod>>, p: Pod, key: string) returns (r: map<string, seq<Pod>>)
    requires forall value :: value in groups ==> groups[value] != []
    ensures forall value :: value in r ==> r[value] != []
    ensures forall v :: Lookup(r, v) == Lookup(groups, v) + (if LabelOf(p, key) == v then [p] else [])
  {
    var value := LabelOf(p, key);
    var list := if value in groups then groups[value] else [];
    r := groups[value := list + [p]];
  }

  /** One pod is filed under each of the keys in turn. */
  method FilePod(groups: map<string, seq<Pod>>, p: Pod, keys: seq<string>) returns (r: map<string, seq<Pod>>)
    requires forall value :: value in groups ==> groups[value] != []
    ensures forall value :: value in r ==> r[value] != []
    ensures forall value :: Lookup(r, value) == Lookup(groups, value) + Filed(p, keys, value)
  {
    r := groups;
    for j := 0 to |keys|
      invariant forall value :: value in r ==> r[value] != []
      invariant forall value :: Lookup(r, value) == Lookup(groups, value) + Filed(p, keys[..j], value)
    {
      assert keys[..j + 1][..j] == keys[..j];
      r := FileOnce(r, p, keys[j]);
    }
    assert keys[..|keys|] == keys;
  }

  /** The two nested loops over pods and keys. */
  method GroupPods(pods: seq<Pod>, keys: seq<string>) returns (groups: map<string, seq<Pod>>)
    ensures Grouped(groups, pods, keys)
  {
    groups := map[];
    for i := 0 to |pods|
      invariant Grouped(groups, pods[..i], keys)
    {
      ghost var before := groups;
      groups := FilePod(groups, pods[i], keys);
      assert pods[..i + 1][..i] == pods[..i];
      forall v ensures Lookup(groups, v) == Under(pods[..i + 1], keys, v) {
        assert Lookup(before, v) == Under(pods[..i], keys, v);
      }
    }
    assert pods[..|pods|] == pods;
  }

  // ---- Choosing ----

  datatype Flags = Flags(count: Flag, percent: Flag, random: bool, keys: seq<string>)

  /** `Panics` is the run-time panic of a negative slice bound. */
  datatype Pick = Selected(pods: seq<Pod>) | Rejected | Panics

  function CountFor(list: seq<Pod>, f: Flags): Count { GetResourceCount(|list|, f.count, f.percent) }

  /** The first n of the list, shuffled first if asked; rs are the random numbers drawn. */
  function Chosen(list: seq<Pod>, f: Flags, rs: seq<nat>): (r: seq<Pod>)
    requires Choice(rs, |list|)
  {
    var c := CountFor(list, f);
    if c.Counted? && 0 <= c.value <= |list| then
      (if f.random then Shuffled(list, rs) else list)[..c.value]
    else []
  }

  /** Without group keys: one count over the whole list. */
  method SelectAll(pods: seq<Pod>, f: Flags, rs: seq<nat>) returns (r: Pick)
    requires Choice(rs, |pods|)
    ensures var c := GetResourceCount(|pods|, f.count, f.percent);
            r == if c.Illegal? then Rejected
                 else if c.value < 0 then Panics
                 else Selected((if f.random then Shuffled(pods, rs) else pods)[..c.value])
  {
    var c := CountFor(pods, f);
    if c.Illegal? {
      return Rejected;
    }
    if c.value < 0 {
      return Panics;
    }
    if f.random && pods != [] {
      var cells := new Pod[|pods|](i requires 0 <= i < |pods| => pods[i]);
      assert cells[..] == pods;
      ShuffleInPlace(cells, rs);
      return Selected(cells[..][..c.value]);
    }
    return Selected(pods[..c.value]);
  }

  ghost predicate Draws(draws: string -> seq<nat>, pods: seq<Pod>, keys: seq<string>) {
    forall v :: Choice(draws(v), |Under(pods, keys, v)|)
  }

  ghost function ChosenOf(pods: seq<Pod>, f: Flags, draws: string -> seq<nat>): string -> seq<Pod>
    requires Draws(draws, pods, f.keys)
  {
    (v: string) =>
      if Choice(draws(v), |Under(pods, f.keys, v)|) then Chosen(Under(pods, f.keys, v), f, draws(v)) else []
  }

  /** An enumeration of the group labels, in any order. */
  ghost predicate IsOrder(order: seq<string>, pods: seq<Pod>, keys: seq<string>) {
    NoRepeats(order) && forall v :: v in order <==> Under(pods, keys, v) != []
  }

  ghost predicate Negative(pods: seq<Pod>, f: Flags, v: string) {
    Under(pods, f.keys, v) != [] && CountFor(Under(pods, f.keys, v), f).Counted?
    && CountFor(Under(pods, f.keys, v), f).value < 0
  }

  lemma SomeGroup(pods: seq<Pod>, keys: seq<string>)
    requires pods != [] && keys != []
    ensures Under(pods, keys, LabelOf(pods[|pods| - 1], keys[|keys| - 1])) != []
  {
  }

  lemma {:induction false} NoGroup(keys: seq<string>, v: string)
    ensures Under([], keys, v) == []
  {
  }

  /** Some labels are visited, none of them with a negative count; `list` is what they gave. */
  ghost predicate Visiting(groups: map<string, seq<Pod>>, todo: set<string>, order: seq<string>, list: seq<Pod>,
                           pods: seq<Pod>, f: Flags, g: string -> seq<Pod>) {
    && NoRepeats(order) && todo <= groups.Keys
    && (forall v :: v in groups <==> v in todo || v in order)
    && (forall v :: v in order ==> v !in todo && !Negative(pods, f, v))
    && list == Flat(order, g)
  }

  lemma Visit(groups: map<string, seq<Pod>>, todo: set<string>, order: seq<string>, list: seq<Pod>,
              pods: seq<Pod>, f: Flags, g: string -> seq<Pod>, v: string)
    requires Visiting(groups, todo, order, list, pods, f, g) && v in todo && !Negative(pods, f, v)
    ensures Visiting(groups, todo - {v}, order + [v], list + g(v), pods, f, g)
  {
    assert (order + [v])[..|order|] == order;
    assert forall x :: x in order + [v] <==> x in order || x == v;
  }

  /** What the result must be, for some order of the groups. */
  ghost predicate Answers(r: Pick, order: seq<string>, pods: seq<Pod>, f: Flags, draws: string -> seq<nat>)
    requires Draws(draws, pods, f.keys)
  {
    if pods == [] || !Usable(f.count) || !Usable(f.percent) then r == Rejected
    else if exists v :: Negative(pods, f, v) then r == Panics
    else
      && IsOrder(order, pods, f.keys)
      && var list := Flat(order, ChosenOf(pods, f, draws));
         r == if list == [] then Rejected else Selected(list)
  }

  lemma AllVisited(groups: map<string, seq<Pod>>, order: seq<string>, list: seq<Pod>,
                   pods: seq<Pod>, f: Flags, draws: string -> seq<nat>)
    requires Draws(draws, pods, f.keys) && Grouped(groups, pods, f.keys) && f.keys != []
    requires Visiting(groups, {}, order, list, pods, f, ChosenOf(pods, f, draws))
    requires Usable(f.count) && Usable(f.percent)
    ensures Answers(if list == [] then Rejected else Selected(list), order, pods, f, draws)
  {
    forall v ensures v in order <==> Under(pods, f.keys, v) != [] {
      assert Lookup(groups, v) == Under(pods, f.keys, v);
    }
  }

  lemma StopsEarly(pods: seq<Pod>, f: Flags, draws: string -> seq<nat>, v: string, order: seq<string>)
    requires Draws(draws, pods, f.keys) && Under(pods, f.keys, v) != []
    requires var c := CountFor(Under(pods, f.keys, v), f); c.Illegal? || c.value < 0
    ensures Answers(if CountFor(Under(pods, f.keys, v), f).Illegal? then Rejected else Panics, order, pods, f, draws)
  {
    if pods == [] {
      NoGroup(f.keys, v);
    } else if CountFor(Under(pods, f.keys, v), f).Counted? {
      assert Negative(pods, f, v);
    }
  }

  lemma KeysOf(groups: map<string, seq<Pod>>, pods: seq<Pod>, keys: seq<string>)
    requires Grouped(groups, pods, keys) && keys != []
    ensures groups.Keys == {} <==> pods == []
  {
    if pods == [] {
      forall v | v in groups ensures false {
        NoGroup(keys, v);
      }
    } else {
      SomeGroup(pods, keys);
      var v := LabelOf(pods[|pods| - 1], keys[|keys| - 1]);
      assert Lookup(groups, v) != [];
      assert v in groups.Keys;
    }
  }

  lemma VisitNone(groups: map<string, seq<Pod>>, pods: seq<Pod>, f: Flags, g: string -> seq<Pod>)
    ensures Visiting(groups, groups.Keys, [], [], pods, f, g)
  {
  }

  /** One round of the loop over the groups. */
  method SelectOne(groups: map<string, seq<Pod>>, v: string, pods: seq<Pod>, f: Flags, draws: string -> seq<nat>,
                   ghost order: seq<string>) returns (r: Pick)
    requires Draws(draws, pods, f.keys) && Grouped(groups, pods, f.keys) && v in groups
    ensures if r.Selected? then
              r.pods == ChosenOf(pods, f, draws)(v) && !Negative(pods, f, v) && Usable(f.count) && Usable(f.percent)
            else Answers(r, order, pods, f, draws)
  {
    assert groups[v] == Lookup(groups, v) == Under(pods, f.keys, v);
    r := SelectAll(groups[v], f, draws(v));
    if !r.Selected? {
      StopsEarly(pods, f, draws, v, order);
    }
  }

  method SelectEach(groups: map<string, seq<Pod>>, pods: seq<Pod>, f: Flags, draws: string -> seq<nat>)
    returns (r: Pick, ghost order: seq<string>)
    requires f.keys != [] && Draws(draws, pods, f.keys) && Grouped(groups, pods, f.keys) && groups.Keys != {}
    ensures Answers(r, order, pods, f, draws)
  {
    var todo := groups.Keys;
    var list: seq<Pod> := [];
    order := [];
    ghost var g := ChosenOf(pods, f, draws);
    VisitNone(groups, pods, f, g);
    while todo != {}
      invariant todo <= groups.Keys && Visiting(groups, todo, order, list, pods, f, g)
      invariant todo != groups.Keys ==> Usable(f.count) && Usable(f.percent)
      decreases todo
    {
      var v :| v in todo;
      var more := SelectOne(groups, v, pods, f, draws, order);
      if !more.Selected? {
        return more, order;
      }
      Visit(groups, todo, order, list, pods, f, g, v);
      list := list + more.pods;
      todo := todo - {v};
      order := order + [v];
    }
    AllVisited(groups, order, list, pods, f, draws);
    r := if list == [] then Rejected else Selected(list);
  }

  /** Grouping, then the loop over the group map, which Go visits in no particular order. */
  method SelectGrouped(pods: seq<Pod>, f: Flags, draws: string -> seq<nat>) returns (r: Pick)
    requires f.keys != [] && Draws(draws, pods, f.keys)
    ensures exists order :: Answers(r, order, pods, f, draws)
  {
    var groups := GroupPods(pods, f.keys);
    KeysOf(groups, pods, f.keys);
    ghost var order: seq<string> := [];
    if groups.Keys == {} {
      assert Answers(Rejected, order, pods, f, draws);
      return Rejected;
    }
    r, order := SelectEach(groups, pods, f, draws);
  }
}
