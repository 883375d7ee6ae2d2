/** Container matching: which containers of the selected pods an experiment is created on. */
module Containers {
  import opened Texts
  import opened Pods
  import opened Counting
  import opened Identifiers
  import opened Flattening

  const DOCKER := "docker"
  const CONTAINERD := "containerd"

  /** The three container flags; `index` is Unset when empty and Bad when not a number. */
  datatype Wanted = Wanted(ids: string, names: string, index: Flag)

  /** `Panics` is a slice or index out of range. */
  datatype Match = Matched(list: seq<Meta>) | Refused | Panics

  /** TruncateContainerObjectMetaUid: runtime and id. */
  function Truncate(uid: string): (string, string) {
    if "containerd://" <= uid then (CONTAINERD, Erase(uid, "containerd://")) else (DOCKER, Erase(uid, "docker://"))
  }

  /** How the two kinds of raw ids read. */
  lemma TruncateIs(x: string)
    ensures Clear(x, "docker://") ==> Truncate("docker://" + x) == ("docker", x)
    ensures Clear(x, "containerd://") ==> Truncate("containerd://" + x) == ("containerd", x)
  {
    var uid := "docker://" + x;
    assert uid[0] == 'd' && "containerd://"[0] == 'c';
    assert !("containerd://" <= uid);
    if Clear(x, "docker://") {
      EraseFront("docker://", x);
    }
    if Clear(x, "containerd://") {
      EraseFront("containerd://", x);
    }
  }

  /** A docker id that containerId[:12] cannot slice. */
  predicate Short(c: ContainerStatus) {
    c.id != "" && Truncate(c.id).0 == DOCKER && |Truncate(c.id).1| < 12
  }

  /** Runtime and id as they are matched and recorded: docker ids cut to 12 characters. */
  function IdOf(c: ContainerStatus): (string, string) {
    if c.id == "" then ("", "")
    else
      var t := Truncate(c.id);
      if t.0 == DOCKER && |t.1| >= 12 then (DOCKER, t.1[..12]) else t
  }

  predicate Healthy(c: ContainerStatus) { c.running && c.id != "" }

  function EntryOf(p: Pod, c: ContainerStatus): Meta {
    Meta("", IdOf(c).0, IdOf(c).1, c.name, p.name, p.node, p.namespace)
  }

  ghost predicate Docker(raw: string, x: string) { raw == "docker://" + x && Clear(x, "docker://") }

  ghost predicate Containerd(raw: string, x: string) { raw == "containerd://" + x && Clear(x, "containerd://") }

  /** Runtime and id as recorded, from the raw id: nothing from an empty one; a docker id cut to 12
      characters, unless it is too short for that; a containerd id whole. */
  lemma IdIs(c: ContainerStatus, x: string)
    ensures c.id == "" ==> IdOf(c) == ("", "") && !Short(c)
    ensures Docker(c.id, x) ==> (Short(c) <==> |x| < 12) && (|x| >= 12 ==> IdOf(c) == ("docker", x[..12]))
    ensures Containerd(c.id, x) ==> !Short(c) && IdOf(c) == ("containerd", x)
  {
    TruncateIs(x);
  }

  /** The entry of a container of a pod, every field from where it belongs. */
  ghost predicate ForContainer(e: Meta, p: Pod, c: ContainerStatus) {
    && e.id == "" && e.podName == p.name && e.nodeName == p.node && e.namespace == p.namespace
    && e.containerName == c.name && (e.runtime, e.containerId) == IdOf(c)
  }

  /** The items of the flag in force, ids before names. */
  function Items(w: Wanted): seq<string> {
    if w.ids != "" then Split(w.ids, ',') else if w.names != "" then Split(w.names, ',') else []
  }

  predicate ByIndex(w: Wanted) { w.ids == "" && w.names == "" && !w.index.Unset? }

  /** An item asks for a container: the recorded id is a prefix of it, or it is the name. */
  predicate Asks(item: string, c: ContainerStatus, w: Wanted) {
    item != "" && if w.ids != "" then IdOf(c).1 <= item else item == c.name
  }

  predicate AskedBy(items: seq<string>, c: ContainerStatus, w: Wanted) {
    exists i :: 0 <= i < |items| && Asks(items[i], c, w)
  }

  predicate Asked(c: ContainerStatus, w: Wanted) { AskedBy(Items(w), c, w) }

  /** One copy of the entry for every item that asks for the container. */
  function Copies(items: seq<string>, p: Pod, c: ContainerStatus, w: Wanted): (r: seq<Meta>)
    ensures forall i :: 0 <= i < |r| ==> r[i] == EntryOf(p, c)
    ensures r != [] <==> AskedBy(items, c, w)
  {
    if items == [] then []
    else
      var n := |items| - 1;
      Copies(items[..n], p, c, w) + (if Asks(items[n], c, w) then [EntryOf(p, c)] else [])
  }

  /** The entries of the containers of one pod, in order. */
  function From(p: Pod, cs: seq<ContainerStatus>, w: Wanted): seq<Meta> { Flat(cs, EntriesOf(p, w)) }

  function EntriesOf(p: Pod, w: Wanted): ContainerStatus -> seq<Meta> {
    (c: ContainerStatus) => Copies(Items(w), p, c, w)
  }

  predicate Sound(cs: seq<ContainerStatus>, n: nat)
    requires n <= |cs|
  {
    forall j :: 0 <= j < n ==> Healthy(cs[j])
  }

  /** The loop over the containers stops at i: the id is too short, or the container is asked for and
      it or an earlier one is not healthy. */
  predicate Stuck(cs: seq<ContainerStatus>, w: Wanted, i: nat)
    requires i < |cs|
  {
    Short(cs[i]) || (Asked(cs[i], w) && !Sound(cs, i + 1))
  }

  function FirstStuck(cs: seq<ContainerStatus>, w: Wanted, i: nat): (r: nat)
    requires i <= |cs|
    ensures i <= r <= |cs|
    ensures forall j :: i <= j < r ==> !Stuck(cs, w, j)
    ensures r < |cs| ==> Stuck(cs, w, r)
    decreases |cs| - i
  {
    if i == |cs| || Stuck(cs, w, i) then i else FirstStuck(cs, w, i + 1)
  }

  // ---- One pod ----

  lemma StillAsked(items: seq<string>, k: nat, c: ContainerStatus, w: Wanted)
    requires k < |items| && Asks(items[k], c, w)
    ensures AskedBy(items, c, w)
  {
  }

  /** The loop over the items of the flag in force, with the error variable as it is by then. */
  method MatchItems(items: seq<string>, p: Pod, c: ContainerStatus, failed: bool, w: Wanted, list: seq<Meta>)
    returns (r: Match)
    ensures r == if failed && AskedBy(items, c, w) then Refused else Matched(list + Copies(items, p, c, w))
  {
    var out := list;
    var entry := EntryOf(p, c);
    for k := 0 to |items|
      invariant out == list + Copies(items[..k], p, c, w)
      invariant failed ==> !AskedBy(items[..k], c, w)
    {
      CopiesSnoc(items, k, p, c, w);
      if items[k] == "" {
        continue;
      }
      if Asks(items[k], c, w) {
        if failed {
          StillAsked(items, k, c, w);
          return Refused;
        }
        out := out + [entry];
      }
    }
    assert items[..|items|] == items;
    return Matched(out);
  }

  lemma CopiesSnoc(items: seq<string>, k: nat, p: Pod, c: ContainerStatus, w: Wanted)
    requires k < |items|
    ensures Copies(items[..k + 1], p, c, w) ==
            Copies(items[..k], p, c, w) + (if Asks(items[k], c, w) then [EntryOf(p, c)] else [])
    ensures AskedBy(items[..k + 1], c, w) <==> AskedBy(items[..k], c, w) || Asks(items[k], c, w)
  {
    assert items[..k + 1][..k] == items[..k] && items[..k + 1][k] == items[k];
  }

  /** One round of the loop over the containers. */
  method MatchAt(p: Pod, cs: seq<ContainerStatus>, i: nat, failed: bool, w: Wanted, list: seq<Meta>)
    returns (r: Match, failed': bool)
    requires i < |cs| && (failed <==> !Sound(cs, i))
    ensures r == if Short(cs[i]) then Panics
                 else if Stuck(cs, w, i) then Refused
                 else Matched(list + Copies(Items(w), p, cs[i], w))
    ensures r.Matched? ==> (failed' <==> !Sound(cs, i + 1))
  {
    failed' := failed;
    if cs[i].id == "" {
      failed' := true;
    } else if Short(cs[i]) {
      return Panics, failed';
    }
    if !cs[i].running {
      failed' := true;
    }
    r := MatchItems(Items(w), p, cs[i], failed', w, list);
  }

  method MatchEach(p: Pod, cs: seq<ContainerStatus>, w: Wanted, list: seq<Meta>) returns (r: Match, failed: bool)
    ensures var k := FirstStuck(cs, w, 0);
            r == if k == |cs| then Matched(list + From(p, cs, w)) else if Short(cs[k]) then Panics else Refused
    ensures r.Matched? ==> (failed <==> !Sound(cs, |cs|))
  {
    var out := list;
    failed := false;
    for i := 0 to |cs|
      invariant failed <==> !Sound(cs, i)
      invariant FirstStuck(cs, w, 0) == FirstStuck(cs, w, i)
      invariant out == list + From(p, cs[..i], w)
    {
      r, failed := MatchAt(p, cs, i, failed, w, out);
      if !r.Matched? {
        return;
      }
      FlatSnoc(cs, i, EntriesOf(p, w));
      out := r.list;
    }
    assert cs[..|cs|] == cs;
    r := Matched(out);
  }

  /** What one pod contributes, or how it ends the call. */
  function PodMatch(p: Pod, w: Wanted): Match {
    if p.containers.None? then Matched([])
    else
      var cs := p.containers.value;
      var k := FirstStuck(cs, w, 0);
      if k < |cs| then (if Short(cs[k]) then Panics else Refused)
      else if !ByIndex(w) then Matched(From(p, cs, w))
      else if w.index.Bad? || w.index.value > |cs| - 1 then Refused
      else if w.index.value < 0 then Panics
      else if !Sound(cs, |cs|) then Refused
      else Matched([EntryOf(p, cs[w.index.value])])
  }

  method MatchPod(p: Pod, w: Wanted, list: seq<Meta>) returns (r: Match)
    ensures r == var m := PodMatch(p, w); if m.Matched? then Matched(list + m.list) else m
  {
    if p.containers.None? {
      return Matched(list);
    }
    var cs := p.containers.value;
    var failed: bool;
    r, failed := MatchEach(p, cs, w, list);
    if !r.Matched? || !ByIndex(w) {
      return;
    }
    FlatNone(cs, EntriesOf(p, w));
    if w.index.Bad? {
      return Refused;
    }
    var idx := w.index.value;
    if idx > |cs| - 1 {
      return Refused;
    }
    if idx < 0 {
      return Panics;
    }
    assert failed <== !Healthy(cs[idx]);
    if cs[idx].id == "" {
      failed := true;
    }
    if !cs[idx].running {
      failed := true;
    }
    if failed {
      return Refused;
    }
    return Matched(r.list + [EntryOf(p, cs[idx])]);
  }

  // ---- All pods ----

  function Outcome(pods: seq<Pod>, w: Wanted): Match {
    if pods == [] then Matched([])
    else
      var n := |pods| - 1;
      var before := Outcome(pods[..n], w);
      if !before.Matched? then before
      else
        var m := PodMatch(pods[n], w);
        if m.Matched? then Matched(before.list + m.list) else m
  }

  lemma {:induction false} FailureStays(pods: seq<Pod>, i: nat, w: Wanted)
    requires i <= |pods| && !Outcome(pods[..i], w).Matched?
    ensures Outcome(pods, w) == Outcome(pods[..i], w)
    decreases |pods|
  {
    if i == |pods| {
      assert pods[..i] == pods;
    } else {
      var n := |pods| - 1;
      assert pods[..n][..i] == pods[..i];
      FailureStays(pods[..n], i, w);
    }
  }

  /** getMatchedContainerMetaList. */
  method GetMatched(pods: seq<Pod>, w: Wanted) returns (r: Match)
    ensures r == Outcome(pods, w)
  {
    var list: seq<Meta> := [];
    for i := 0 to |pods|
      invariant Outcome(pods[..i], w) == Matched(list)
    {
      assert pods[..i + 1][..i] == pods[..i];
      r := MatchPod(pods[i], w, list);
      if !r.Matched? {
        FailureStays(pods, i + 1, w);
        return;
      }
      list := r.list;
    }
    assert pods[..|pods|] == pods;
    return Matched(list);
  }
}
