/** The pod scope takes the first running container of every pod, without any container flag. */
module PodContainers {
  import opened BladeTypes
  import opened Pods
  import opened Identifiers
  import opened Containers
  import opened Keeping

  /** The first running container, or the length. */
  function FirstRunning(cs: seq<ContainerStatus>, i: nat): (r: nat)
    requires i <= |cs|
    ensures i <= r <= |cs| && (forall j :: i <= j < r ==> !cs[j].running) && (r < |cs| ==> cs[r].running)
    decreases |cs| - i
  {
    if i == |cs| || cs[i].running then i else FirstRunning(cs, i + 1)
  }

  /** GetOneAvailableContainerIdFromPod. */
  method FindRunning(p: Pod) returns (r: Option<ContainerStatus>)
    ensures r == Running(p)
  {
    if p.containers.None? || p.containers.value == [] {
      return None;
    }
    var cs := p.containers.value;
    for i := 0 to |cs|
      invariant FirstRunning(cs, 0) == FirstRunning(cs, i)
    {
      if !cs[i].running {
        continue;
      }
      return Some(cs[i]);
    }
    return None;
  }

  function Running(p: Pod): Option<ContainerStatus> {
    if p.containers.None? then None
    else
      var cs := p.containers.value;
      var k := FirstRunning(cs, 0);
      if k < |cs| then Some(cs[k]) else None
  }

  /** A running container may still lack its id; cutting the id of a docker container then fails. */
  predicate Uncut(p: Pod) {
    Running(p).Some? && Truncate(Running(p).value.id).0 == DOCKER && |Truncate(Running(p).value.id).1| < 12
  }

  function Entry(p: Pod): Option<Meta> {
    if Running(p).Some? then Some(EntryOf(p, Running(p).value)) else None
  }

  /** getContainerMatchedList: a pod with nothing running is skipped. */
  method MatchAvailable(pods: seq<Pod>) returns (r: Match)
    ensures r == if exists i :: 0 <= i < |pods| && Uncut(pods[i]) then Panics else Matched(Kept(pods, Entry))
  {
    var list: seq<Meta> := [];
    for i := 0 to |pods|
      invariant forall j :: 0 <= j < i ==> !Uncut(pods[j])
      invariant list == Kept(pods[..i], Entry)
    {
      assert pods[..i + 1][..i] == pods[..i];
      var c := FindRunning(pods[i]);
      if c.Some? {
        var (runtime, id) := Truncate(c.value.id);
        if runtime == DOCKER {
          if |id| < 12 {
            assert Uncut(pods[i]);
            return Panics;
          }
          id := id[..12];
        }
        list := list + [Meta("", runtime, id, c.value.name, pods[i].name, pods[i].node, pods[i].namespace)];
      }
    }
    assert pods[..|pods|] == pods;
    return Matched(list);
  }

  /** The call panics on a running docker container whose id has less than 12 characters, and on one that
      has no id yet. */
  lemma UncutIs(p: Pod, x: string)
    requires Running(p).Some?
    ensures Running(p).value.id == "" ==> Uncut(p)
    ensures Docker(Running(p).value.id, x) ==> (Uncut(p) <==> |x| < 12)
    ensures Containerd(Running(p).value.id, x) ==> !Uncut(p)
  {
    TruncateIs(x);
  }

  /** The entries are, strictly in pod order, one for every pod with something running, each for the
      first running container of its pod. */
  lemma OneForEachRunning(pods: seq<Pod>) returns (at: seq<nat>)
    ensures |at| == |Kept(pods, Entry)| && forall j, k :: 0 <= j < k < |at| ==> at[j] < at[k]
    ensures forall i :: 0 <= i < |pods| ==> (i in at <==> Running(pods[i]).Some?)
    ensures forall k :: 0 <= k < |at| ==>
              at[k] < |pods| && Running(pods[at[k]]).Some? && Running(pods[at[k]]).value.running
              && ForContainer(Kept(pods, Entry)[k], pods[at[k]], Running(pods[at[k]]).value)
  {
    at := KeptEach(pods, Entry);
    forall i | i in at ensures Entry(pods[i]).Some? {
      var k :| 0 <= k < |at| && at[k] == i;
    }
    forall i | 0 <= i < |pods| ensures i in at <==> Running(pods[i]).Some? {
      assert Entry(pods[i]).Some? <==> Running(pods[i]).Some?;
    }
    forall k | 0 <= k < |at| ensures Running(pods[at[k]]).Some? && Running(pods[at[k]]).value.running {
      assert Entry(pods[at[k]]).Some?;
    }
  }
}
