/** What a successful container match says about the pods. */
module ContainerTheorems {
  import opened Texts
  import opened Pods
  import opened Counting
  import opened Identifiers
  import opened Flattening
  import opened Containers

  /** A container is asked for: with an ids flag, its recorded id is a prefix of a non-empty item of it;
      else, with a names flag, its name is a non-empty item of that. */
  ghost predicate WantedBy(c: ContainerStatus, w: Wanted) {
    if w.ids != "" then
      exists k :: 0 <= k < |Split(w.ids, ',')| && Split(w.ids, ',')[k] != "" && IdOf(c).1 <= Split(w.ids, ',')[k]
    else w.names != "" && c.name != "" && c.name in Split(w.names, ',')
  }

  lemma AskedIsWanted(c: ContainerStatus, w: Wanted)
    ensures Asked(c, w) <==> WantedBy(c, w)
  {
    if WantedBy(c, w) {
      if w.ids != "" {
        var k :| 0 <= k < |Split(w.ids, ',')| && Split(w.ids, ',')[k] != "" && IdOf(c).1 <= Split(w.ids, ',')[k];
        assert Asks(Items(w)[k], c, w);
      } else {
        var k :| 0 <= k < |Split(w.names, ',')| && Split(w.names, ',')[k] == c.name;
        assert Asks(Items(w)[k], c, w);
      }
    }
  }

  /** No id too short to cut; by id or name, everything up to a container that is asked for is healthy;
      by index, the index exists and every container is healthy. */
  ghost predicate Fine(p: Pod, w: Wanted) {
    p.containers.None? ||
    var cs := p.containers.value;
    && (forall i :: 0 <= i < |cs| ==> !Short(cs[i]))
    && (forall i, j :: 0 <= j <= i < |cs| && WantedBy(cs[i], w) ==> cs[j].running && cs[j].id != "")
    && (w.ids == "" && w.names == "" && w.index != Unset ==>
          w.index.Num? && 0 <= w.index.value < |cs| && forall j :: 0 <= j < |cs| ==> cs[j].running && cs[j].id != "")
  }

  lemma NoneStuck(cs: seq<ContainerStatus>, w: Wanted)
    ensures FirstStuck(cs, w, 0) == |cs| <==>
            (forall i :: 0 <= i < |cs| ==> !Short(cs[i]))
            && (forall i, j :: 0 <= j <= i < |cs| && Asked(cs[i], w) ==> Healthy(cs[j]))
  {
    var k := FirstStuck(cs, w, 0);
    if k == |cs| {
      forall i | 0 <= i < |cs| ensures !Short(cs[i]) {
        assert !Stuck(cs, w, i);
      }
      forall i, j | 0 <= j <= i < |cs| && Asked(cs[i], w) ensures Healthy(cs[j]) {
        assert !Stuck(cs, w, i);
      }
    } else {
      assert Stuck(cs, w, k);
    }
  }

  lemma PodMatchedExactly(p: Pod, w: Wanted)
    ensures PodMatch(p, w).Matched? <==> Fine(p, w)
  {
    if p.containers.Some? {
      NoneStuck(p.containers.value, w);
      forall i | 0 <= i < |p.containers.value| ensures Asked(p.containers.value[i], w) <==> WantedBy(p.containers.value[i], w) {
        AskedIsWanted(p.containers.value[i], w);
      }
    }
  }

  /** Every pod lets the match go on. */
  ghost predicate AllMatch(pods: seq<Pod>, w: Wanted) {
    forall i :: 0 <= i < |pods| ==> PodMatch(pods[i], w).Matched?
  }

  lemma AllMatchSnoc(pods: seq<Pod>, w: Wanted)
    requires pods != []
    ensures AllMatch(pods, w) <==> AllMatch(pods[..|pods| - 1], w) && PodMatch(pods[|pods| - 1], w).Matched?
  {
    var n := |pods| - 1;
    assert forall i :: 0 <= i < n ==> pods[..n][i] == pods[i];
  }

  lemma {:induction false} OutcomeMatched(pods: seq<Pod>, w: Wanted)
    ensures Outcome(pods, w).Matched? <==> AllMatch(pods, w)
    decreases |pods|
  {
    if pods != [] {
      OutcomeMatched(pods[..|pods| - 1], w);
      AllMatchSnoc(pods, w);
    }
  }

  /** The match succeeds exactly when every pod is fine. */
  lemma MatchedExactly(pods: seq<Pod>, w: Wanted)
    ensures Outcome(pods, w).Matched? <==> forall i :: 0 <= i < |pods| ==> Fine(pods[i], w)
  {
    OutcomeMatched(pods, w);
    forall i | 0 <= i < |pods| ensures PodMatch(pods[i], w).Matched? <==> Fine(pods[i], w) {
      PodMatchedExactly(pods[i], w);
    }
  }

  /** Which container each entry of a pod is for. */
  lemma PodPlaces(p: Pod, cs: seq<ContainerStatus>, w: Wanted) returns (at: seq<nat>)
    ensures |at| == |From(p, cs, w)| && Sorted(at)
    ensures forall k :: 0 <= k < |at| ==>
              at[k] < |cs| && Asked(cs[at[k]], w) && From(p, cs, w)[k] == EntryOf(p, cs[at[k]])
  {
    at := FlatSources(cs, EntriesOf(p, w));
    forall k | 0 <= k < |at| ensures Asked(cs[at[k]], w) && From(p, cs, w)[k] == EntryOf(p, cs[at[k]]) {
      assert From(p, cs, w)[k] in Copies(Items(w), p, cs[at[k]], w);
    }
  }

  lemma PlacesPointed(p: Pod, at: seq<nat>, w: Wanted)
    requires p.containers.Some? && Fine(p, w)
    requires forall k :: 0 <= k < |at| ==> at[k] < |p.containers.value| && Asked(p.containers.value[at[k]], w)
    ensures forall k :: 0 <= k < |at| ==> EntryIn(EntryOf(p, p.containers.value[at[k]]), p, at[k], w)
  {
    forall k | 0 <= k < |at| ensures EntryIn(EntryOf(p, p.containers.value[at[k]]), p, at[k], w) {
      AskedIsWanted(p.containers.value[at[k]], w);
    }
  }

  /** The same for the whole outcome of a pod. */
  lemma PodEntries(p: Pod, w: Wanted, list: seq<Meta>) returns (at: seq<nat>)
    requires PodMatch(p, w) == Matched(list)
    ensures AllIn(list, p, at, w)
  {
    PodMatchedExactly(p, w);
    if p.containers.None? {
      at := [];
    } else if ByIndex(w) {
      at := [w.index.value];
    } else {
      at := PodPlaces(p, p.containers.value, w);
      PlacesPointed(p, at, w);
    }
  }

  /** A container the flags point at, healthy like all before it in its pod: ids come before names, names
      before the index. */
  ghost predicate Pointed(p: Pod, i: nat, w: Wanted) {
    && p.containers.Some? && i < |p.containers.value|
    && var cs := p.containers.value;
    && (forall j :: 0 <= j <= i ==> cs[j].running && cs[j].id != "")
    && (w.ids != "" || w.names != "" ==> WantedBy(cs[i], w))
    && (w.ids == "" && w.names == "" ==>
          w.index == Num(i) && forall j :: 0 <= j < |cs| ==> cs[j].running && cs[j].id != "")
  }

  datatype Place = Place(pod: nat, container: nat)

  predicate NotAfter(a: Place, b: Place) { a.pod < b.pod || (a.pod == b.pod && a.container <= b.container) }

  ghost predicate InOrder(at: seq<Place>) { forall j, k :: 0 <= j < k < |at| ==> NotAfter(at[j], at[k]) }

  ghost predicate EntryIn(e: Meta, p: Pod, i: nat, w: Wanted) {
    Pointed(p, i, w) && ForContainer(e, p, p.containers.value[i])
  }

  ghost predicate EntryAt(e: Meta, pods: seq<Pod>, a: Place, w: Wanted) {
    a.pod < |pods| && EntryIn(e, pods[a.pod], a.container, w)
  }

  ghost predicate AllAt(list: seq<Meta>, pods: seq<Pod>, at: seq<Place>, w: Wanted) {
    |at| == |list| && InOrder(at) && forall k :: 0 <= k < |at| ==> EntryAt(list[k], pods, at[k], w)
  }

  function InPod(n: nat, at: seq<nat>): (r: seq<Place>)
    ensures |r| == |at| && forall k :: 0 <= k < |at| ==> r[k] == Place(n, at[k])
  {
    seq(|at|, k requires 0 <= k < |at| => Place(n, at[k]))
  }

  ghost predicate AllIn(list: seq<Meta>, p: Pod, at: seq<nat>, w: Wanted) {
    |at| == |list| && Sorted(at)
    && forall k :: 0 <= k < |at| ==> EntryIn(list[k], p, at[k], w)
  }

  lemma OrderSnoc(n: nat, before: seq<Place>, here: seq<nat>)
    requires InOrder(before) && Sorted(here) && forall k :: 0 <= k < |before| ==> before[k].pod < n
    ensures InOrder(before + InPod(n, here))
  {
  }

  lemma EntryStays(e: Meta, pods: seq<Pod>, a: Place, w: Wanted)
    requires pods != [] && EntryAt(e, pods[..|pods| - 1], a, w)
    ensures EntryAt(e, pods, a, w)
  {
    assert pods[a.pod] == pods[..|pods| - 1][a.pod];
  }

  lemma StaysAt(list: seq<Meta>, pods: seq<Pod>, before: seq<Place>, w: Wanted)
    requires pods != [] && AllAt(list, pods[..|pods| - 1], before, w)
    ensures AllAt(list, pods, before, w) && forall k :: 0 <= k < |before| ==> before[k].pod < |pods| - 1
  {
    forall k | 0 <= k < |before| ensures EntryAt(list[k], pods, before[k], w) && before[k].pod < |pods| - 1 {
      assert EntryAt(list[k], pods[..|pods| - 1], before[k], w);
      EntryStays(list[k], pods, before[k], w);
    }
  }

  lemma HereAt(more: seq<Meta>, pods: seq<Pod>, here: seq<nat>, w: Wanted)
    requires pods != [] && AllIn(more, pods[|pods| - 1], here, w)
    ensures AllAt(more, pods, InPod(|pods| - 1, here), w)
  {
    var at := InPod(|pods| - 1, here);
    OrderSnoc(|pods| - 1, [], here);
    assert [] + at == at;
    forall k | 0 <= k < |at| ensures EntryAt(more[k], pods, at[k], w) {
      assert EntryIn(more[k], pods[|pods| - 1], here[k], w);
    }
  }

  lemma AllAtConcat(a: seq<Meta>, b: seq<Meta>, pods: seq<Pod>, at: seq<Place>, bt: seq<Place>, w: Wanted)
    requires AllAt(a, pods, at, w) && AllAt(b, pods, bt, w) && InOrder(at + bt)
    ensures AllAt(a + b, pods, at + bt, w)
  {
    forall k | 0 <= k < |at + bt| ensures EntryAt((a + b)[k], pods, (at + bt)[k], w) {
      if k < |at| {
        assert EntryAt(a[k], pods, at[k], w);
      } else {
        assert EntryAt(b[k - |at|], pods, bt[k - |at|], w);
      }
    }
  }

  lemma AllAtSnoc(list: seq<Meta>, more: seq<Meta>, pods: seq<Pod>, before: seq<Place>, here: seq<nat>, w: Wanted)
    requires pods != [] && AllAt(list, pods[..|pods| - 1], before, w) && AllIn(more, pods[|pods| - 1], here, w)
    ensures AllAt(list + more, pods, before + InPod(|pods| - 1, here), w)
  {
    StaysAt(list, pods, before, w);
    HereAt(more, pods, here, w);
    OrderSnoc(|pods| - 1, before, here);
    AllAtConcat(list, more, pods, before, InPod(|pods| - 1, here), w);
  }

  /** Every entry is for a healthy container the flags point at, every container listed before it in its
      pod is healthy too, and the list follows the order of the pods and of their containers. */
  lemma {:induction false} EntriesInOrder(pods: seq<Pod>, w: Wanted) returns (at: seq<Place>)
    requires Outcome(pods, w).Matched?
    ensures AllAt(Outcome(pods, w).list, pods, at, w)
    decreases |pods|
  {
    if pods == [] {
      at := [];
    } else {
      var n := |pods| - 1;
      var before := EntriesInOrder(pods[..n], w);
      var here := PodEntries(pods[n], w, PodMatch(pods[n], w).list);
      AllAtSnoc(Outcome(pods[..n], w).list, PodMatch(pods[n], w).list, pods, before, here, w);
      at := before + InPod(n, here);
    }
  }

  lemma AskedIsCopied(p: Pod, c: ContainerStatus, w: Wanted)
    requires Asked(c, w)
    ensures EntryOf(p, c) in Copies(Items(w), p, c, w)
  {
    var copies := Copies(Items(w), p, c, w);
    assert copies[0] == EntryOf(p, c) && copies[0] in copies;
  }

  lemma AskedIsIn(p: Pod, cs: seq<ContainerStatus>, i: nat, w: Wanted)
    requires i < |cs| && Asked(cs[i], w)
    ensures EntryOf(p, cs[i]) in From(p, cs, w)
  {
    AskedIsCopied(p, cs[i], w);
    FlatHas(cs, i, EntryOf(p, cs[i]), EntriesOf(p, w));
  }

  ghost predicate Chosen(p: Pod, i: nat, w: Wanted) {
    && p.containers.Some? && i < |p.containers.value|
    && if w.ids == "" && w.names == "" then w.index == Num(i) else WantedBy(p.containers.value[i], w)
  }

  lemma ChosenIn(p: Pod, i: nat, w: Wanted)
    requires PodMatch(p, w).Matched? && Chosen(p, i, w)
    ensures EntryOf(p, p.containers.value[i]) in PodMatch(p, w).list
  {
    if !ByIndex(w) {
      AskedIsWanted(p.containers.value[i], w);
      AskedIsIn(p, p.containers.value, i, w);
    }
  }

  function MatchesOf(w: Wanted): Pod -> seq<Meta> {
    (p: Pod) => var m := PodMatch(p, w); if m.Matched? then m.list else []
  }

  lemma {:induction false} OutcomeFlat(pods: seq<Pod>, w: Wanted)
    requires Outcome(pods, w).Matched?
    ensures Outcome(pods, w).list == Flat(pods, MatchesOf(w))
    decreases |pods|
  {
    if pods != [] {
      OutcomeFlat(pods[..|pods| - 1], w);
    }
  }

  /** Nothing asked for is missing. */
  lemma AllChosenIn(pods: seq<Pod>, i: nat, k: nat, w: Wanted) returns (e: Meta)
    requires Outcome(pods, w).Matched? && i < |pods| && Chosen(pods[i], k, w)
    ensures e in Outcome(pods, w).list && ForContainer(e, pods[i], pods[i].containers.value[k])
  {
    e := EntryOf(pods[i], pods[i].containers.value[k]);
    OutcomeMatched(pods, w);
    ChosenIn(pods[i], k, w);
    OutcomeFlat(pods, w);
    FlatHas(pods, i, e, MatchesOf(w));
  }

  /** A container asked for by several items is listed once for each of them. */
  lemma {:induction false} OneCopyEach(items: seq<string>, p: Pod, c: ContainerStatus, w: Wanted)
    ensures |Copies(items, p, c, w)| == |set k | 0 <= k < |items| && Asks(items[k], c, w)|
    decreases |items|
  {
    var all := set k | 0 <= k < |items| && Asks(items[k], c, w);
    if items == [] {
      assert all == {};
    } else {
      var n := |items| - 1;
      var before := set k | 0 <= k < |items[..n]| && Asks(items[..n][k], c, w);
      OneCopyEach(items[..n], p, c, w);
      assert all == if Asks(items[n], c, w) then before + {n} else before;
    }
  }

  function WithStatuses(pods: seq<Pod>): nat {
    if pods == [] then 0 else WithStatuses(pods[..|pods| - 1]) + (if pods[|pods| - 1].containers.Some? then 1 else 0)
  }

  /** By index there is one entry for every pod that has container statuses. */
  lemma {:induction false} OneEachByIndex(pods: seq<Pod>, w: Wanted)
    requires Outcome(pods, w).Matched? && ByIndex(w)
    ensures |Outcome(pods, w).list| == WithStatuses(pods)
    decreases |pods|
  {
    if pods != [] {
      OneEachByIndex(pods[..|pods| - 1], w);
    }
  }

  /** A container without an id has the empty string as its recorded id, which is a prefix of everything:
      by id, one such container anywhere in the pods fails the call, asked for or not. */
  lemma IdsNeedEveryId(pods: seq<Pod>, w: Wanted, item: string, a: Place)
    requires w.ids != "" && item in Split(w.ids, ',') && item != ""
    requires a.pod < |pods| && pods[a.pod].containers.Some? && a.container < |pods[a.pod].containers.value|
    requires pods[a.pod].containers.value[a.container].id == ""
    ensures !Outcome(pods, w).Matched?
  {
    MatchedExactly(pods, w);
    var c := pods[a.pod].containers.value[a.container];
    var k :| 0 <= k < |Split(w.ids, ',')| && Split(w.ids, ',')[k] == item;
    assert WantedBy(c, w) && c.id == "";
    assert !Fine(pods[a.pod], w);
  }
}
