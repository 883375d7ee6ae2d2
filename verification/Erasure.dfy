/** When the executor's success is the conjunction of its targets, and the runs in which the store made
    without the mutex erases a failure. */
module Erasure {
  import opened Executor

  /** The target goes through the branch that stores success = true. */
  predicate Missing(job: Job, id: nat, lookup: Lookup)
    requires id < |job.targets|
  {
    job.targets[id].error == "" && job.targets[id].meta.podName != "" && lookup.NotFound?
  }

  /** The target of a missing pod whose command succeeds all the same. */
  predicate Lucky(job: Job, e: Entry) { e.ok && e.id < |job.targets| && Missing(job, e.id, e.lookup) }

  // ---- No failure is lost unless a missing pod's command succeeds ----

  /** This worker has erased the flag, or is about to set it to false. */
  ghost predicate Owing(job: Job, pc: Pc) {
    match pc
    case Executing(id, lookup) => id < |job.targets| && Missing(job, id, lookup)
    case Done(e) => e.id < |job.targets| && Missing(job, e.id, e.lookup)
    case Appending(e) => e.id < |job.targets| && Missing(job, e.id, e.lookup)
    case Loading(ok) => !ok
    case Storing(v) => !v
    case _ => false
  }

  ghost predicate SomeOwing(job: Job, s: State) { exists w :: 0 <= w < |s.pcs| && Owing(job, s.pcs[w]) }

  ghost predicate SomeLucky(job: Job, es: seq<Entry>) { exists k :: 0 <= k < |es| && Lucky(job, es[k]) }

  ghost predicate TrueStores(s: State) { forall w :: 0 <= w < |s.pcs| && s.pcs[w] == Storing(true) ==> s.success }

  /** A true flag over a failure has a worker that will still correct it, or a lucky target. */
  ghost predicate Excused(job: Job, s: State) {
    TrueStores(s) && (s.success && !AllOk(s.entries) ==> SomeOwing(job, s) || SomeLucky(job, s.entries))
  }

  lemma TrueStoresKept(job: Job, s: State, a: Action)
    requires Inv(job, s) && Enabled(job, s, a) && TrueStores(s)
    ensures TrueStores(Apply(job, s, a))
  {
    StepShape(job, s, a);
  }

  lemma OtherOwes(job: Job, s: State, a: Action)
    requires Enabled(job, s, a) && SomeOwing(job, s) && !Owing(job, s.pcs[a.w])
    ensures SomeOwing(job, Apply(job, s, a))
  {
    StepShape(job, s, a);
    var w :| 0 <= w < |s.pcs| && Owing(job, s.pcs[w]);
    assert Owing(job, Apply(job, s, a).pcs[w]);
  }

  lemma OwesNow(job: Job, s: State, a: Action)
    requires Enabled(job, s, a) && Owing(job, Apply(job, s, a).pcs[a.w])
    ensures SomeOwing(job, Apply(job, s, a))
  {
    StepShape(job, s, a);
  }

  lemma StillLucky(job: Job, es: seq<Entry>, e: Entry)
    ensures SomeLucky(job, es) ==> SomeLucky(job, es + [e])
    ensures Lucky(job, e) ==> SomeLucky(job, es + [e])
  {
    if k :| 0 <= k < |es| && Lucky(job, es[k]) {
      assert Lucky(job, (es + [e])[k]);
    }
    assert (es + [e])[|es|] == e;
  }

  lemma AppendExcused(job: Job, s: State, a: Action)
    requires Inv(job, s) && Enabled(job, s, a) && Excused(job, s) && s.pcs[a.w].Appending?
    ensures Excused(job, Apply(job, s, a))
  {
    var e := s.pcs[a.w].entry;
    TrueStoresKept(job, s, a);
    StillLucky(job, s.entries, e);
    Snoc(s.entries, e);
    if !e.ok {
      OwesNow(job, s, a);
    } else if !Lucky(job, e) && SomeOwing(job, s) {
      assert PcOk(job, s.pcs[a.w]);
      OtherOwes(job, s, a);
    }
  }

  /** Any other step of a worker that owes nothing, or goes on owing. */
  lemma OtherExcused(job: Job, s: State, a: Action)
    requires Inv(job, s) && Enabled(job, s, a) && Excused(job, s) && !s.pcs[a.w].Appending?
    ensures Excused(job, Apply(job, s, a))
  {
    TrueStoresKept(job, s, a);
    StepShape(job, s, a);
    var t := Apply(job, s, a);
    assert t.entries == s.entries;
    if s.pcs[a.w].Erasing? {
      assert PcOk(job, s.pcs[a.w]);
      OwesNow(job, s, a);
    } else if s.success && SomeOwing(job, s) {
      if Owing(job, s.pcs[a.w]) {
        if !s.pcs[a.w].Storing? {
          OwesNow(job, s, a);
        }
      } else {
        OtherOwes(job, s, a);
      }
    }
  }

  lemma {:induction false} RunExcused(job: Job, s: State, acts: seq<Action>)
    requires Inv(job, s) && Legal(job, s, acts) && Excused(job, s)
    ensures Excused(job, Run(job, s, acts))
    decreases |acts|
  {
    if acts != [] {
      StepKeeps(job, s, acts[0]);
      if s.pcs[acts[0].w].Appending? {
        AppendExcused(job, s, acts[0]);
      } else {
        OtherExcused(job, s, acts[0]);
      }
      RunExcused(job, Apply(job, s, acts[0]), acts[1..]);
    }
  }

  /** In every run whose results hold no success of a missing pod's target, the reported success is the
      conjunction of the outcomes. */
  lemma SuccessIsConjunction(job: Job, acts: seq<Action>)
    requires Legal(job, Start(job), acts) && Returned(Run(job, Start(job), acts))
    requires !SomeLucky(job, Run(job, Start(job), acts).entries)
    ensures Run(job, Start(job), acts).success <==> AllOk(Run(job, Start(job), acts).entries)
  {
    StartInv(job);
    RunExcused(job, Start(job), acts);
    SuccessFlag(job, acts);
  }

  // ---- The same answers in every interleaving ----

  datatype Reply = Reply(lookup: Lookup, response: Response)

  /** The step gets the answer fixed for its target. */
  ghost predicate StepAgrees(s: State, a: Action, answers: nat -> Reply) {
    a.w < |s.pcs| &&
    match s.pcs[a.w]
    case Took(id) => a.lookup == answers(id).lookup && a.response == answers(id).response
    case Executing(id, _) => a.response == answers(id).response
    case _ => true
  }

  ghost predicate Agrees(job: Job, s: State, acts: seq<Action>, answers: nat -> Reply)
    requires Legal(job, s, acts)
    decreases |acts|
  {
    acts == [] || (StepAgrees(s, acts[0], answers) && Agrees(job, Apply(job, s, acts[0]), acts[1..], answers))
  }

  function Result(job: Job, answers: nat -> Reply, i: nat): Entry
    requires i < |job.targets|
  {
    Outcome(job, i, answers(i).lookup, answers(i).response)
  }

  ghost predicate IsResult(job: Job, answers: nat -> Reply, e: Entry) {
    e.id < |job.targets| && e == Result(job, answers, e.id)
  }

  ghost predicate PcAnswered(job: Job, pc: Pc, answers: nat -> Reply) {
    match pc
    case Erasing(id, lookup) => lookup == answers(id).lookup
    case Executing(id, lookup) => lookup == answers(id).lookup
    case Done(e) => IsResult(job, answers, e)
    case Appending(e) => IsResult(job, answers, e)
    case _ => true
  }

  ghost predicate Answered(job: Job, s: State, answers: nat -> Reply) {
    && (forall w :: 0 <= w < |s.pcs| ==> PcAnswered(job, s.pcs[w], answers))
    && (forall k :: 0 <= k < |s.entries| ==> IsResult(job, answers, s.entries[k]))
  }

  lemma PcStaysAnswered(job: Job, s: State, a: Action, answers: nat -> Reply)
    requires Enabled(job, s, a) && StepAgrees(s, a, answers) && PcAnswered(job, s.pcs[a.w], answers)
    ensures PcAnswered(job, Apply(job, s, a).pcs[a.w], answers)
  {
  }

  lemma StepAnswered(job: Job, s: State, a: Action, answers: nat -> Reply)
    requires Enabled(job, s, a) && StepAgrees(s, a, answers) && Answered(job, s, answers)
    ensures Answered(job, Apply(job, s, a), answers)
  {
    PcStaysAnswered(job, s, a, answers);
    StepShape(job, s, a);
    var t := Apply(job, s, a);
    forall k | 0 <= k < |t.entries| ensures IsResult(job, answers, t.entries[k]) {
      if k == |s.entries| {
        assert PcAnswered(job, s.pcs[a.w], answers);
      }
    }
  }

  lemma {:induction false} RunAnswered(job: Job, s: State, acts: seq<Action>, answers: nat -> Reply)
    requires Legal(job, s, acts) && Agrees(job, s, acts, answers) && Answered(job, s, answers)
    ensures Answered(job, Run(job, s, acts), answers)
    decreases |acts|
  {
    if acts != [] {
      StepAnswered(job, s, acts[0], answers);
      RunAnswered(job, Apply(job, s, acts[0]), acts[1..], answers);
    }
  }

  // ---- Building runs ----

  /** These steps, with these answers, lead from s to t. */
  ghost predicate Leads(job: Job, answers: nat -> Reply, s: State, acts: seq<Action>, t: State) {
    Legal(job, s, acts) && Agrees(job, s, acts, answers) && Run(job, s, acts) == t
  }

  lemma {:induction false} Then(job: Job, answers: nat -> Reply, s: State, a: seq<Action>, t: State, b: seq<Action>, u: State)
    requires Leads(job, answers, s, a, t) && Leads(job, answers, t, b, u)
    ensures Leads(job, answers, s, a + b, u)
    decreases |a|
  {
    if a == [] {
      assert a + b == b;
    } else {
      assert (a + b)[0] == a[0] && (a + b)[1..] == a[1..] + b;
      Then(job, answers, Apply(job, s, a[0]), a[1..], t, b, u);
    }
  }

  lemma Stay(job: Job, answers: nat -> Reply, s: State)
    ensures Leads(job, answers, s, [], s)
  {
  }

  lemma One(job: Job, answers: nat -> Reply, s: State, acts: seq<Action>, t: State, a: Action)
    requires Leads(job, answers, s, acts, t) && Enabled(job, t, a) && StepAgrees(t, a, answers)
    ensures Leads(job, answers, s, acts + [a], Apply(job, t, a))
  {
    var u := Apply(job, t, a);
    assert [a][1..] == [];
    assert Legal(job, u, []) && Run(job, u, []) == u;
    Then(job, answers, s, acts, t, [a], u);
  }

  /** A worker with a result that finds the mutex free. */
  lemma Finish(job: Job, answers: nat -> Reply, s: State, w: nat, e: Entry) returns (acts: seq<Action>)
    requires w < |s.pcs| && s.pcs[w] == Done(e) && s.lock.None?
    ensures Leads(job, answers, s, acts,
                  Move(s, w, Ready).(entries := s.entries + [e], success := s.success && e.ok))
  {
    var a := Action(w, Found, Failed("", 0));
    var s1 := Apply(job, s, a);
    var s2 := Apply(job, s1, a);
    var s3 := Apply(job, s2, a);
    var s4 := Apply(job, s3, a);
    Stay(job, answers, s);
    One(job, answers, s, [], s, a);
    One(job, answers, s, [] + [a], s1, a);
    One(job, answers, s, [] + [a] + [a], s2, a);
    One(job, answers, s, [] + [a] + [a] + [a], s3, a);
    acts := [] + [a] + [a] + [a] + [a];
    assert s4.pcs == s.pcs[w := Ready];
  }

  /** A free worker takes the next target and prepares it. */
  lemma Take(job: Job, answers: nat -> Reply, s: State, w: nat) returns (acts: seq<Action>)
    requires w < |s.pcs| && s.pcs[w] == Ready && s.next < |job.targets|
    ensures var r := answers(s.next);
            Leads(job, answers, s, acts, Move(s, w, Prepared(job, s.next, r.lookup, r.response)).(next := s.next + 1))
  {
    var r := answers(s.next);
    var a := Action(w, r.lookup, r.response);
    var s1 := Apply(job, s, a);
    Stay(job, answers, s);
    One(job, answers, s, [], s, a);
    One(job, answers, s, [] + [a], s1, a);
    acts := [] + [a] + [a];
    assert Apply(job, s1, a).pcs == s.pcs[w := Prepared(job, s.next, r.lookup, r.response)];
  }

  lemma Execute(job: Job, answers: nat -> Reply, s: State, w: nat, id: nat) returns (acts: seq<Action>)
    requires w < |s.pcs| && id < |job.targets| && s.pcs[w] == Executing(id, answers(id).lookup)
    ensures Leads(job, answers, s, acts, Move(s, w, Done(Result(job, answers, id))))
  {
    var a := Action(w, answers(id).lookup, answers(id).response);
    Stay(job, answers, s);
    One(job, answers, s, [], s, a);
    acts := [] + [a];
  }

  lemma Erase(job: Job, answers: nat -> Reply, s: State, w: nat, id: nat) returns (acts: seq<Action>)
    requires w < |s.pcs| && id < |job.targets| && s.pcs[w] == Erasing(id, answers(id).lookup)
    ensures Leads(job, answers, s, acts,
                  Move(s, w, Done(Result(job, answers, id))).(success := true, erased := true))
  {
    var a := Action(w, Found, Failed("", 0));
    var s1 := Apply(job, s, a);
    Stay(job, answers, s);
    One(job, answers, s, [], s, a);
    var more := Execute(job, answers, s1, w, id);
    var t := Move(s1, w, Done(Result(job, answers, id)));
    Then(job, answers, s, [] + [a], s1, more, t);
    acts := [] + [a] + more;
    assert t.pcs == s.pcs[w := Done(Result(job, answers, id))];
  }

  /** From prepared to done. */
  lemma Work(job: Job, answers: nat -> Reply, s: State, w: nat, id: nat) returns (acts: seq<Action>, t: State)
    requires w < |s.pcs| && id < |job.targets|
    requires s.pcs[w] == Prepared(job, id, answers(id).lookup, answers(id).response)
    ensures Leads(job, answers, s, acts, t)
    ensures t == Move(s, w, Done(Result(job, answers, id))).(success := t.success, erased := t.erased)
  {
    match s.pcs[w]
    case Done(e) =>
      acts, t := [], s;
      Stay(job, answers, s);
      assert s.pcs[w := Done(Result(job, answers, id))] == s.pcs;
    case Erasing(_, _) =>
      acts := Erase(job, answers, s, w, id);
      t := Move(s, w, Done(Result(job, answers, id))).(success := true, erased := true);
    case Executing(_, _) =>
      acts := Execute(job, answers, s, w, id);
      t := Move(s, w, Done(Result(job, answers, id)));
  }

  /** One worker handles the next target without interruption. */
  lemma Solo(job: Job, answers: nat -> Reply, s: State, w: nat) returns (acts: seq<Action>, t: State)
    requires w < |s.pcs| && s.pcs[w] == Ready && s.lock.None? && s.next < |job.targets|
    ensures Leads(job, answers, s, acts, t)
    ensures t == s.(next := s.next + 1, entries := s.entries + [Result(job, answers, s.next)],
                    success := t.success, erased := t.erased)
  {
    var r := answers(s.next);
    var take := Take(job, answers, s, w);
    var s1 := Move(s, w, Prepared(job, s.next, r.lookup, r.response)).(next := s.next + 1);
    var work, s2 := Work(job, answers, s1, w, s.next);
    var finish := Finish(job, answers, s2, w, Result(job, answers, s.next));
    t := Run(job, s2, finish);
    Then(job, answers, s, take, s1, work, s2);
    Then(job, answers, s, take + work, s2, finish, t);
    acts := take + work + finish;
    assert t.pcs == s.pcs[w := Ready] == s.pcs;
  }

  /** One worker handles all targets up to a given one. */
  lemma {:induction false} SoloUpTo(job: Job, answers: nat -> Reply, s: State, w: nat, upto: nat) returns (acts: seq<Action>, t: State)
    requires w < |s.pcs| && s.pcs[w] == Ready && s.lock.None? && s.next <= upto <= |job.targets|
    ensures Leads(job, answers, s, acts, t)
    ensures t == s.(next := upto, entries := t.entries, success := t.success, erased := t.erased)
    ensures forall e :: e in s.entries ==> e in t.entries
    ensures forall i :: s.next <= i < upto ==> Result(job, answers, i) in t.entries
    decreases upto - s.next
  {
    if s.next == upto {
      acts, t := [], s;
      Stay(job, answers, s);
    } else {
      var one, s1 := Solo(job, answers, s, w);
      assert Result(job, answers, s.next) in s1.entries;
      var more, s2 := SoloUpTo(job, answers, s1, w, upto);
      t := s2;
      Then(job, answers, s, one, s1, more, t);
      acts := one + more;
    }
  }

  /** The queue is empty: the workers leave one after the other. */
  lemma {:induction false} LeaveAll(job: Job, answers: nat -> Reply, s: State, k: nat) returns (acts: seq<Action>, t: State)
    requires s.next == |job.targets| && k <= |s.pcs|
    requires forall w :: 0 <= w < |s.pcs| ==> s.pcs[w] == if w < k then Exited else Ready
    ensures Leads(job, answers, s, acts, t)
    ensures Returned(t) && t.success == s.success && t.entries == s.entries
    decreases |s.pcs| - k
  {
    if k == |s.pcs| {
      acts, t := [], s;
      Stay(job, answers, s);
    } else {
      var a := Action(k, Found, Failed("", 0));
      Stay(job, answers, s);
      One(job, answers, s, [], s, a);
      var s1 := Apply(job, s, a);
      var more, s2 := LeaveAll(job, answers, s1, k + 1);
      t := s2;
      Then(job, answers, s, [] + [a], s1, more, t);
      acts := [] + [a] + more;
    }
  }

  // ---- The exact condition ----

  ghost predicate Fails(job: Job, answers: nat -> Reply, i: nat) {
    i < |job.targets| && !Result(job, answers, i).ok
  }

  ghost predicate Saves(job: Job, answers: nat -> Reply, i: nat) {
    i < |job.targets| && Lucky(job, Result(job, answers, i))
  }

  /** Some target fails and the command for some missing pod succeeds. */
  ghost predicate Erasable(job: Job, answers: nat -> Reply) {
    (exists f :: Fails(job, answers, f)) && (exists m :: Saves(job, answers, m))
  }

  /** A run with these answers, up to where Wait returns. */
  ghost predicate Complete(job: Job, acts: seq<Action>, answers: nat -> Reply) {
    && Legal(job, Start(job), acts) && Agrees(job, Start(job), acts, answers)
    && Returned(Run(job, Start(job), acts))
  }

  /** A worker that is done with target m erased whatever was reported before. */
  lemma SavedLast(job: Job, answers: nat -> Reply, s: State, m: nat) returns (acts: seq<Action>, t: State)
    requires 0 < |s.pcs| && Saves(job, answers, m) && s.pcs[0] == Erasing(m, answers(m).lookup) && s.lock.None?
    ensures Leads(job, answers, s, acts, t)
    ensures t == Move(s, 0, Ready).(entries := s.entries + [Result(job, answers, m)], success := true, erased := true)
  {
    var e := Result(job, answers, m);
    var erase := Erase(job, answers, s, 0, m);
    var s1 := Move(s, 0, Done(e)).(success := true, erased := true);
    var finish := Finish(job, answers, s1, 0, e);
    t := Run(job, s1, finish);
    Then(job, answers, s, erase, s1, finish, t);
    acts := erase + finish;
    assert t.pcs == s.pcs[0 := Ready];
  }

  /** Worker 0 stops just before its store for the missing pod, worker 1 does all the rest. */
  lemma Parked(job: Job, answers: nat -> Reply, f: nat, m: nat) returns (acts: seq<Action>, t: State)
    requires Fails(job, answers, f) && Saves(job, answers, m)
    ensures Leads(job, answers, Start(job), acts, t)
    ensures t == Start(job).(next := |job.targets|, pcs := Start(job).pcs[0 := Erasing(m, answers(m).lookup)],
                             entries := t.entries, success := t.success, erased := t.erased)
    ensures Result(job, answers, f) in t.entries
  {
    assert f != m && |job.targets| >= 2;
    var s0 := Start(job);
    var first, s1 := SoloUpTo(job, answers, s0, 1, m);
    var take := Take(job, answers, s1, 0);
    var s2 := Run(job, s1, take);
    assert s2.pcs == s0.pcs[0 := Erasing(m, answers(m).lookup)];
    var rest, s3 := SoloUpTo(job, answers, s2, 1, |job.targets|);
    t := s3;
    Then(job, answers, s0, first, s1, take, s2);
    Then(job, answers, s0, first + take, s2, rest, t);
    acts := first + take + rest;
  }

  /** For all such answers some interleaving reports success over a failure. */
  lemma FailureErased(job: Job, answers: nat -> Reply) returns (acts: seq<Action>)
    requires Erasable(job, answers)
    ensures Complete(job, acts, answers)
    ensures var s := Run(job, Start(job), acts);
            s.success && !AllOk(s.entries)
  {
    var f :| Fails(job, answers, f);
    var m :| Saves(job, answers, m);
    var s0 := Start(job);
    var parked, s1 := Parked(job, answers, f, m);
    var last, s2 := SavedLast(job, answers, s1, m);
    assert s2.pcs == s0.pcs;
    var leave, s3 := LeaveAll(job, answers, s2, 0);
    Then(job, answers, s0, parked, s1, last, s2);
    Then(job, answers, s0, parked + last, s2, leave, s3);
    acts := parked + last + leave;
    var k :| 0 <= k < |s1.entries| && s1.entries[k] == Result(job, answers, f);
    assert !s3.entries[k].ok;
  }

  ghost predicate Exact(job: Job, acts: seq<Action>)
    requires Legal(job, Start(job), acts)
  {
    Run(job, Start(job), acts).success <==> AllOk(Run(job, Start(job), acts).entries)
  }

  lemma ExactUnless(job: Job, answers: nat -> Reply, acts: seq<Action>)
    requires Complete(job, acts, answers) && !Exact(job, acts)
    ensures Erasable(job, answers)
  {
    var s := Run(job, Start(job), acts);
    RunAnswered(job, Start(job), acts, answers);
    if !SomeLucky(job, s.entries) {
      SuccessIsConjunction(job, acts);
    }
    SuccessFlag(job, acts);
    var k :| 0 <= k < |s.entries| && Lucky(job, s.entries[k]);
    assert IsResult(job, answers, s.entries[k]) && Saves(job, answers, s.entries[k].id);
    var j :| 0 <= j < |s.entries| && !s.entries[j].ok;
    assert IsResult(job, answers, s.entries[j]) && Fails(job, answers, s.entries[j].id);
  }

  /** With fixed answers, every interleaving reports the conjunction of its outcomes exactly if no target
      fails or no missing pod's command succeeds. */
  lemma SuccessExact(job: Job, answers: nat -> Reply)
    ensures (forall acts :: Complete(job, acts, answers) ==> Exact(job, acts)) <==> !Erasable(job, answers)
  {
    if Erasable(job, answers) {
      var acts := FailureErased(job, answers);
      assert Complete(job, acts, answers) && !Exact(job, acts);
    } else {
      forall acts | Complete(job, acts, answers) ensures Exact(job, acts) {
        if !Exact(job, acts) {
          ExactUnless(job, answers, acts);
        }
      }
    }
  }
}
