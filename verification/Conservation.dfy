/** From create to destroy: the executor's results become the recorded status, and the status is read
    back into the list of targets to destroy. */
module Conservation {
  import opened BladeTypes
  import opened Identifiers
  import opened Executor
  import opened Gathering
  import opened Keeping

  // ---- Preparing the targets ----

  datatype Command =
    | BySandbox(pod: string, namespace: string, runtime: string)
    | ByContainer(containerId: string, runtime: string, uid: string)

  datatype Prepared = Prepared(meta: Meta, command: Command, toolPod: string)

  /** A network experiment other than dns is destroyed through the sandbox of the pod. */
  function CommandFor(m: Meta, bySandbox: bool): Option<Command> {
    if !bySandbox then Some(ByContainer(m.containerId, m.runtime, m.id))
    else if m.runtime == "docker" || m.runtime == "containerd" then Some(BySandbox(m.podName, m.namespace, m.runtime))
    else None
  }

  /** getExperimentIdentifiersWithNsexec outside node scope: one entry per target, in order, or an error
      at the first target with an unsupported runtime or whose tool pod cannot be looked up. */
  method Prepare(metas: seq<Meta>, bySandbox: bool, toolPod: nat -> Option<string>) returns (r: Option<seq<Prepared>>)
    ensures r.Some? <==> forall i :: 0 <= i < |metas| ==>
              (bySandbox ==> metas[i].runtime == "docker" || metas[i].runtime == "containerd") && toolPod(i).Some?
    ensures r.Some? ==> |r.value| == |metas| && forall i :: 0 <= i < |metas| ==>
              && r.value[i].meta == metas[i] && Some(r.value[i].toolPod) == toolPod(i)
              && r.value[i].command == if bySandbox then BySandbox(metas[i].podName, metas[i].namespace, metas[i].runtime)
                                       else ByContainer(metas[i].containerId, metas[i].runtime, metas[i].id)
  {
    var list: seq<Prepared> := [];
    for i := 0 to |metas|
      invariant |list| == i
      invariant forall j :: 0 <= j < i ==>
        CommandFor(metas[j], bySandbox).Some? && toolPod(j).Some?
        && list[j] == Prepared(metas[j], CommandFor(metas[j], bySandbox).value, toolPod(j).value)
    {
      var command := CommandFor(metas[i], bySandbox);
      var pod := toolPod(i);
      if command.None? || pod.None? {
        return None;
      }
      list := list + [Prepared(metas[i], command.value, pod.value)];
    }
    return Some(list);
  }

  // ---- Reading the targets back ----

  /** One recorded status as a target of the destroy pass; a failed one is not destroyed again. */
  function TargetOf(st: ResStatus): Option<Meta> {
    if st.success then Some(Parse(st.identifier).(id := st.id)) else None
  }

  function Rebuild(ss: seq<ResStatus>): seq<Meta> { Kept(ss, TargetOf) }

  function Back(st: ResStatus): seq<Meta> { if TargetOf(st).Some? then [TargetOf(st).value] else [] }

  /** The loop of the three Destroy controllers. */
  method RebuildList(statuses: seq<ResStatus>) returns (list: seq<Meta>)
    ensures list == Rebuild(statuses)
  {
    list := [];
    for i := 0 to |statuses|
      invariant list == Rebuild(statuses[..i])
    {
      KeptSnoc(statuses, i, TargetOf);
      if statuses[i].success {
        var meta := Parse(statuses[i].identifier);
        list := list + [meta.(id := statuses[i].id)];
      }
    }
    assert statuses[..|statuses|] == statuses;
  }

  /** The rebuilt list follows the recorded statuses: each successful one gives its parsed identifier with
      its uid, and no other gives anything. */
  lemma RebuildInOrder(ss: seq<ResStatus>) returns (at: seq<nat>)
    ensures |at| == |Rebuild(ss)| && Rising(at)
    ensures forall k :: 0 <= k < |at| ==>
              at[k] < |ss| && ss[at[k]].success && Rebuild(ss)[k] == Parse(ss[at[k]].identifier).(id := ss[at[k]].id)
    ensures forall i :: 0 <= i < |ss| && ss[i].success ==> i in at
  {
    at := KeptEach(ss, TargetOf);
    forall k | 0 <= k < |at|
      ensures ss[at[k]].success && Rebuild(ss)[k] == Parse(ss[at[k]].identifier).(id := ss[at[k]].id)
    {
      assert TargetOf(ss[at[k]]) == Some(Rebuild(ss)[k]);
    }
    assert forall i :: 0 <= i < |ss| && ss[i].success ==> TargetOf(ss[i]).Some?;
  }

  function Recorded(es: seq<Entry>): (r: seq<ResStatus>)
    ensures |r| == |es| && forall i :: 0 <= i < |es| ==> r[i] == es[i].status
  {
    seq(|es|, i requires 0 <= i < |es| => es[i].status)
  }

  ghost function BackOf(): Entry -> seq<Meta> { (e: Entry) => Back(e.status) }

  lemma {:induction false} RebuildGather(es: seq<Entry>)
    ensures multiset(Rebuild(Recorded(es))) == Gather(es, BackOf())
    decreases |es|
  {
    var ss := Recorded(es);
    if es == [] {
      assert ss == [];
    } else {
      var k := |es| - 1;
      RebuildGather(es[..k]);
      assert ss[..k] == Recorded(es[..k]);
      assert multiset(Rebuild(ss[..k]) + Back(ss[k])) == multiset(Rebuild(ss[..k])) + multiset(Back(ss[k]));
      assert es[..k] + [es[k]] == es;
      GatherSnoc(es[..k], es[k], BackOf());
    }
  }

  // ---- Conservation ----

  /** Target i, if the job succeeded on it, with the uid it now has. */
  ghost function Won(job: Job, i: nat, e: Entry): seq<Meta>
    requires i < |job.targets|
  {
    var meta := job.targets[i].meta;
    if e.ok && e.response.Ok? then [if job.destroy then meta else meta.(id := e.response.result)] else []
  }

  /** The targets the job succeeded on. */
  ghost function Succeeded(job: Job, outs: seq<Entry>): multiset<Meta>
    requires |outs| <= |job.targets|
  {
    if outs == [] then multiset{}
    else Succeeded(job, outs[..|outs| - 1]) + multiset(Won(job, |outs| - 1, outs[|outs| - 1]))
  }

  /** A status with a well-formed identifier gives its target back, with the uid of the status. */
  lemma PrintedBack(st: ResStatus, m: Meta)
    requires st.identifier == Print(m) && Printed(m)
    ensures Back(st) == if st.success then [m.(id := st.id)] else []
  {
    ParsePrint(m);
  }

  lemma OutcomeBack(job: Job, i: nat, e: Entry)
    requires i < |job.targets| && e == Outcome(job, i, e.lookup, e.response)
    requires Printed(job.targets[i].meta)
    ensures Back(e.status) == Won(job, i, e)
  {
    OutcomeFields(job, i, e.lookup, e.response);
    PrintedBack(e.status, job.targets[i].meta);
  }

  lemma {:induction false} GatherSucceeded(job: Job, outs: seq<Entry>)
    requires |outs| <= |job.targets|
    requires forall i :: 0 <= i < |outs| ==> Back(outs[i].status) == Won(job, i, outs[i])
    ensures Gather(outs, BackOf()) == Succeeded(job, outs)
    decreases |outs|
  {
    if outs != [] {
      var i := |outs| - 1;
      assert outs[..i] + [outs[i]] == outs;
      GatherSnoc(outs[..i], outs[i], BackOf());
      GatherSucceeded(job, outs[..i]);
    }
  }

  /** For every interleaving of the workers, the list rebuilt from the recorded status is, as a multiset,
      exactly the targets the tool succeeded on; after a create each carries the uid the tool returned. */
  lemma ListConserved(job: Job, acts: seq<Action>) returns (outs: seq<Entry>)
    requires Legal(job, Start(job), acts) && Returned(Run(job, Start(job), acts))
    requires forall i :: 0 <= i < |job.targets| ==> Printed(job.targets[i].meta)
    ensures |outs| == |job.targets| && multiset(outs) == multiset(Run(job, Start(job), acts).entries)
    ensures forall i :: 0 <= i < |outs| ==> outs[i] == Outcome(job, i, outs[i].lookup, outs[i].response)
    ensures multiset(Rebuild(Recorded(Run(job, Start(job), acts).entries))) == Succeeded(job, outs)
  {
    outs := ResultsArePermutation(job, acts);
    var es := Run(job, Start(job), acts).entries;
    RebuildGather(es);
    GatherPermutation(es, outs, BackOf());
    forall i | 0 <= i < |outs| ensures Back(outs[i].status) == Won(job, i, outs[i]) {
      OutcomeBack(job, i, outs[i]);
    }
    GatherSucceeded(job, outs);
  }

  /** A destroy pass over targets that all fail leaves nothing for the next pass to destroy. */
  lemma FailedDestroyNotRetried(job: Job, acts: seq<Action>)
    requires Legal(job, Start(job), acts) && Returned(Run(job, Start(job), acts))
    requires forall k :: 0 <= k < |Run(job, Start(job), acts).entries| ==> !Run(job, Start(job), acts).entries[k].ok
    ensures Rebuild(Recorded(Run(job, Start(job), acts).entries)) == []
  {
    Reach(job, acts);
    NothingBack(job, Run(job, Start(job), acts).entries);
  }

  lemma {:induction false} NothingBack(job: Job, es: seq<Entry>)
    requires forall k :: 0 <= k < |es| ==> Legit(job, es[k]) && !es[k].ok
    ensures Rebuild(Recorded(es)) == []
    decreases |es|
  {
    if es != [] {
      var k := |es| - 1;
      NothingBack(job, es[..k]);
      assert Recorded(es)[..k] == Recorded(es[..k]);
    }
  }
}
