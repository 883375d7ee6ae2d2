/** From one executor pass to the next: what is recorded decides what a later destroy still reaches. */
module Retry {
  import opened BladeTypes
  import opened Identifiers
  import opened Dispatch
  import R = Reconcile
  import P = Passes
  import E = Executor
  import C = Conservation
  import X = Erasure

  /** CommonExecutor.Exec: the targets could not be prepared, or the workers ran. */
  datatype Execution = NotPrepared(err: string) | Ran(entries: seq<E.Entry>, success: bool)

  function ExecStatus(x: Execution): ExpStatus {
    match x
    case NotPrepared(err) => NO_STATUS.(state := "Error", error := err)
    case Ran(entries, true) => NO_STATUS.(success := true, state := "Success", resources := C.Recorded(entries))
    case Ran(entries, false) =>
      NO_STATUS.(state := "Error", resources := C.Recorded(entries),
                 error := if entries == [] then "the resources not found" else "see resStatus for the error details")
  }

  function Answer(st: ExpStatus): Response { Response(st.success, st.error, Some(st)) }

  /** Destroy of a scope controller; the container scope answers itself when there is no target left. */
  function ControllerDestroy(was: ExpStatus, container: bool, x: Execution): Response {
    if container && C.Rebuild(was.resources) == [] then
      Answer(NO_STATUS.(success := true, state := "Success", resources := was.resources))
    else Answer(ExecStatus(x))
  }

  /** What a destroy pass records for an experiment whose scope has a controller. */
  function Destroyed(was: ExpStatus, container: bool, x: Execution): ExpStatus {
    Destroy(was, true, ControllerDestroy(was, container, x))
  }

  function Metas(job: E.Job): (r: seq<Meta>)
    ensures |r| == |job.targets| && forall i :: 0 <= i < |r| ==> r[i] == job.targets[i].meta
  {
    seq(|job.targets|, i requires 0 <= i < |job.targets| => job.targets[i].meta)
  }

  /** A run of the executor on these targets, up to where Wait returns. */
  ghost predicate Runs(job: E.Job, acts: seq<E.Action>, list: seq<Meta>) {
    Metas(job) == list && E.Legal(job, E.Start(job), acts) && E.Returned(E.Run(job, E.Start(job), acts))
  }

  ghost function Result(job: E.Job, acts: seq<E.Action>): Execution
    requires E.Legal(job, E.Start(job), acts)
  {
    Ran(E.Run(job, E.Start(job), acts).entries, E.Run(job, E.Start(job), acts).success)
  }

  /** Preparing goes target by target, so it can only fail on a target. */
  ghost predicate Possible(x: Execution, list: seq<Meta>) {
    if x.NotPrepared? then list != []
    else exists job, acts :: Runs(job, acts, list) && x == Result(job, acts)
  }

  // ---- What the next pass reaches ----

  lemma SameOk(es: seq<E.Entry>, outs: seq<E.Entry>)
    requires multiset(es) == multiset(outs)
    ensures E.AllOk(es) <==> forall i :: 0 <= i < |outs| ==> outs[i].ok
  {
    forall i | 0 <= i < |outs| ensures outs[i] in es {
      assert outs[i] in multiset(outs);
    }
    forall i | 0 <= i < |es| ensures es[i] in outs {
      assert es[i] in multiset(es);
    }
  }

  /** One outcome per target, in target order, of a completed run. */
  ghost predicate Outcomes(job: E.Job, acts: seq<E.Action>, outs: seq<E.Entry>)
    requires E.Legal(job, E.Start(job), acts)
  {
    && |outs| == |job.targets| && multiset(outs) == multiset(E.Run(job, E.Start(job), acts).entries)
    && forall i :: 0 <= i < |outs| ==> outs[i] == E.Outcome(job, i, outs[i].lookup, outs[i].response)
  }

  /** Unless the command for a missing pod succeeded, the run is successful exactly if every target is. */
  lemma RunSuccess(job: E.Job, acts: seq<E.Action>, outs: seq<E.Entry>)
    requires Runs(job, acts, Metas(job)) && Outcomes(job, acts, outs)
    requires !X.SomeLucky(job, E.Run(job, E.Start(job), acts).entries)
    ensures E.Run(job, E.Start(job), acts).success <==> forall i :: 0 <= i < |outs| ==> outs[i].ok
  {
    X.SuccessIsConjunction(job, acts);
    SameOk(E.Run(job, E.Start(job), acts).entries, outs);
  }

  /** What `Create` records of a completed run: its success, the state and message that go with it, and one
      resource per target. Unless the command for a missing pod succeeded, it is successful exactly if every
      target is. */
  lemma CreateRecords(exp: ExpSpec, job: E.Job, acts: seq<E.Action>) returns (outs: seq<E.Entry>)
    requires Runs(job, acts, Metas(job))
    ensures Outcomes(job, acts, outs)
    ensures var run := E.Run(job, E.Start(job), acts);
            var st := Create(exp, Some(Answer(ExecStatus(Result(job, acts)))));
            && (st.scope, st.target, st.action) == (exp.scope, exp.target, exp.action)
            && st.success == run.success && |st.resources| == |job.targets|
            && st.state == (if run.success then "Success" else "Error")
            && st.error == (if run.success then "" else "see resStatus for the error details")
            && (!X.SomeLucky(job, run.entries) ==> (st.success <==> forall i :: 0 <= i < |outs| ==> outs[i].ok))
  {
    outs := E.ResultsArePermutation(job, acts);
    var run := E.Run(job, E.Start(job), acts);
    assert |run.entries| == |multiset(run.entries)| == |multiset(outs)| == |outs|;
    E.SuccessFlag(job, acts);
    if !X.SomeLucky(job, run.entries) {
      RunSuccess(job, acts, outs);
    }
  }

  /** What a destroy pass over a non-empty target list records: the run's success; the state `Success` or,
      after a failure, the state it had before; the header it had before. */
  lemma DestroyRecords(was: ExpStatus, container: bool, job: E.Job, acts: seq<E.Action>) returns (outs: seq<E.Entry>)
    requires Runs(job, acts, C.Rebuild(was.resources)) && job.targets != []
    ensures Outcomes(job, acts, outs)
    ensures var run := E.Run(job, E.Start(job), acts);
            var st := Destroyed(was, container, Result(job, acts));
            && (st.scope, st.target, st.action) == (was.scope, was.target, was.action)
            && st.success == run.success && |st.resources| == |job.targets|
            && st.state == (if run.success then "Success" else was.state)
            && (!X.SomeLucky(job, run.entries) ==> (st.success <==> forall i :: 0 <= i < |outs| ==> outs[i].ok))
  {
    assert C.Rebuild(was.resources) != [] && was.resources != [];
    outs := E.ResultsArePermutation(job, acts);
    var run := E.Run(job, E.Start(job), acts);
    assert |run.entries| == |multiset(run.entries)| == |multiset(outs)| == |outs|;
    if !X.SomeLucky(job, run.entries) {
      RunSuccess(job, acts, outs);
    }
  }

  /** When the targets cannot be prepared no resource is recorded at all: a create is recorded as a failure
      with the reason, a destroy as a failure in the state it had before. */
  lemma UnpreparedRecords(exp: ExpSpec, was: ExpStatus, container: bool, err: string)
    ensures var st := Create(exp, Some(Answer(ExecStatus(NotPrepared(err)))));
            !st.success && st.state == "Error" && st.error == err && st.resources == []
    ensures C.Rebuild(was.resources) != [] ==>
              var st := Destroyed(was, container, NotPrepared(err));
              !st.success && st.state == was.state && st.error == err && st.resources == []
  {
  }

  /** What `Create` records is, for every interleaving, read back by the first destroy as the targets that
      were created, each with its uid. */
  lemma CreateThenDestroy(exp: ExpSpec, job: E.Job, acts: seq<E.Action>) returns (outs: seq<E.Entry>)
    requires !job.destroy && Runs(job, acts, Metas(job)) && forall i :: 0 <= i < |job.targets| ==> Printed(job.targets[i].meta)
    ensures Outcomes(job, acts, outs)
    ensures var st := Create(exp, Some(Answer(ExecStatus(Result(job, acts)))));
            && multiset(C.Rebuild(st.resources)) == C.Succeeded(job, outs)
            && st.success == E.Run(job, E.Start(job), acts).success
  {
    outs := C.ListConserved(job, acts);
  }

  /** What a destroy pass records is read back by the next one as the targets it has just destroyed; those
      it failed on are not among them. */
  lemma DestroyThenDestroy(was: ExpStatus, container: bool, job: E.Job, acts: seq<E.Action>) returns (outs: seq<E.Entry>)
    requires job.destroy && Runs(job, acts, C.Rebuild(was.resources)) && job.targets != []
    requires forall i :: 0 <= i < |job.targets| ==> Printed(job.targets[i].meta)
    ensures Outcomes(job, acts, outs)
    ensures var st := Destroyed(was, container, Result(job, acts));
            && multiset(C.Rebuild(st.resources)) == C.Succeeded(job, outs)
            && st.success == E.Run(job, E.Start(job), acts).success
  {
    assert C.Rebuild(was.resources) != [];
    outs := C.ListConserved(job, acts);
  }

  // ---- Nothing destroyed, yet Destroyed ----

  /** Preparing the targets failed, or every single one of them. */
  ghost predicate WhollyFails(x: Execution, list: seq<Meta>) {
    list != [] && Possible(x, list) && (x.Ran? ==> forall k :: 0 <= k < |x.entries| ==> !x.entries[k].ok)
  }

  lemma FailedRun(job: E.Job, acts: seq<E.Action>, list: seq<Meta>)
    requires Runs(job, acts, list) && list != []
    requires forall k :: 0 <= k < |Result(job, acts).entries| ==> !Result(job, acts).entries[k].ok
    ensures !Result(job, acts).success && C.Rebuild(C.Recorded(Result(job, acts).entries)) == []
  {
    var outs := E.ResultsArePermutation(job, acts);
    var es := Result(job, acts).entries;
    assert |es| == |multiset(es)| == |multiset(outs)| == |outs|;
    X.SuccessIsConjunction(job, acts);
    assert !es[0].ok;
    C.FailedDestroyNotRetried(job, acts);
  }

  /** After such a pass the experiment has failed and no target is left. */
  lemma NoneLeft(was: ExpStatus, container: bool, x: Execution)
    requires WhollyFails(x, C.Rebuild(was.resources))
    ensures var st := Destroyed(was, container, x); !st.success && C.Rebuild(st.resources) == []
  {
    assert was.resources != [];
    if x.Ran? {
      var job, acts :| Runs(job, acts, C.Rebuild(was.resources)) && x == Result(job, acts);
      FailedRun(job, acts, C.Rebuild(was.resources));
    }
  }

  lemma EmptyRun(job: E.Job, acts: seq<E.Action>)
    requires job.targets == [] && E.Legal(job, E.Start(job), acts)
    ensures Result(job, acts) == Ran([], true)
  {
    assert |E.Start(job).pcs| == 0;
    assert acts == [];
  }

  /** Without targets every destroy succeeds. */
  lemma EmptySucceeds(was: ExpStatus, container: bool, x: Execution)
    requires C.Rebuild(was.resources) == [] && Possible(x, [])
    ensures var st := Destroyed(was, container, x);
            && st.success
            && st.state == (if was.resources == [] then "Destroyed" else "Success")
            && st.resources == (if container then was.resources else [])
  {
    var job, acts :| Runs(job, acts, []) && x == Result(job, acts);
    EmptyRun(job, acts);
  }

  /** The answers of the executor to a finalize pass over these statuses. */
  function Answers(ss: seq<ExpStatus>, container: nat -> bool, xs: nat -> Execution): nat -> ExpStatus {
    (i: nat) => if i < |ss| then Destroyed(ss[i], container(i), xs(i)) else NO_STATUS
  }

  ghost predicate Deletable(cb: Blade) {
    && cb.spec != [] && cb.statuses.Some? && |cb.statuses.value| == |cb.spec|
    && cb.phase != Phase.Destroyed && (cb.phase == Destroying || Deleting(cb))
  }

  /** The write at the end of a finalize pass. */
  ghost function Written(cb: Blade, answers: nat -> ExpStatus): (r: Blade)
    requires Deletable(cb)
    ensures r == cb.(statuses := Some(P.Taken(answers, 0, |cb.spec|)),
                     phase := if forall i :: 0 <= i < |cb.spec| ==> answers(i).success then Phase.Destroyed else Destroying)
  {
    P.FinalizeSound(cb, answers, None);
    R.Trace(R.Start(cb), answers, 0, None)[|cb.spec|].obj
  }

  lemma FirstPass(cb: Blade, container: nat -> bool, first: nat -> Execution)
    requires Deletable(cb)
    requires forall i :: 0 <= i < |cb.spec| ==> WhollyFails(first(i), C.Rebuild(cb.statuses.value[i].resources))
    ensures var cb2 := Written(cb, Answers(cb.statuses.value, container, first));
            cb2.phase == Destroying && Deletable(cb2) && cb2.spec == cb.spec
            && forall i :: 0 <= i < |cb.spec| ==> C.Rebuild(cb2.statuses.value[i].resources) == []
  {
    var n, ss, a1 := |cb.spec|, cb.statuses.value, Answers(cb.statuses.value, container, first);
    forall i | 0 <= i < n ensures !a1(i).success && C.Rebuild(a1(i).resources) == [] {
      NoneLeft(ss[i], container(i), first(i));
    }
    assert !a1(0).success;
  }

  lemma SecondPass(cb: Blade, container: nat -> bool, second: nat -> Execution)
    requires Deletable(cb)
    requires forall i :: 0 <= i < |cb.spec| ==> C.Rebuild(cb.statuses.value[i].resources) == [] && Possible(second(i), [])
    ensures Written(cb, Answers(cb.statuses.value, container, second)).phase == Phase.Destroyed
  {
    var a2 := Answers(cb.statuses.value, container, second);
    forall i | 0 <= i < |cb.spec| ensures a2(i).success {
      EmptySucceeds(cb.statuses.value[i], container(i), second(i));
    }
  }

  /** A finalize pass in which every destroy fails wholly writes Destroying; the next pass over what it
      wrote has no target in any experiment, destroys nothing, and writes Destroyed. */
  lemma DestroyedWithoutDestroying(cb: Blade, container: nat -> bool, first: nat -> Execution, second: nat -> Execution)
    requires Deletable(cb)
    requires forall i :: 0 <= i < |cb.spec| ==> WhollyFails(first(i), C.Rebuild(cb.statuses.value[i].resources))
    requires forall i :: 0 <= i < |cb.spec| ==> Possible(second(i), [])
    ensures var cb2 := Written(cb, Answers(cb.statuses.value, container, first));
            && cb2.phase == Destroying && Deletable(cb2)
            && (forall i :: 0 <= i < |cb.spec| ==> C.Rebuild(cb2.statuses.value[i].resources) == [])
            && Written(cb2, Answers(cb2.statuses.value, container, second)).phase == Phase.Destroyed
  {
    FirstPass(cb, container, first);
    SecondPass(Written(cb, Answers(cb.statuses.value, container, first)), container, second);
  }
}
