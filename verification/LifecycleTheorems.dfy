/** What holds in every run of the lifecycle, whatever the interleaving and however stale the reads. */
module LifecycleTheorems {
  import opened BladeTypes
  import opened Finalizers
  import opened Reconcile
  import opened Lifecycle

  lemma InitInv(s: State)
    requires Init(s)
    ensures Inv(s)
  {
  }

  lemma Reach(s0: State, acts: seq<Action>)
    requires Init(s0) && Legal(s0, acts)
    ensures Inv(Run(s0, acts))
  {
    InitInv(s0);
    RunKeeps(s0, acts);
  }

  /** Every version ever stored outside Initial and Destroyed carries the finalizer, exactly once. */
  lemma FinalizerSafety(s0: State, acts: seq<Action>, i: nat)
    requires Init(s0) && Legal(s0, acts) && i < |Run(s0, acts).history|
    ensures var b := Run(s0, acts).history[i];
            && multiset(b.finalizers)[FINALIZER] <= 1
            && (b.phase != Initial && b.phase != Destroyed ==> multiset(b.finalizers)[FINALIZER] == 1)
  {
    Reach(s0, acts);
    var b := Run(s0, acts).history[i];
    assert Sound(b);
    assert FINALIZER in b.finalizers <==> FINALIZER in multiset(b.finalizers);
  }

  /** End phases are closed, Destroyed is absorbing, the deletion timestamp is never unset or changed,
      and once it is set the phase only moves into an end phase. */
  lemma EndPhasesClosed(s0: State, acts: seq<Action>, i: nat, j: nat)
    requires Init(s0) && Legal(s0, acts) && i <= j < |Run(s0, acts).history|
    ensures var a, b := Run(s0, acts).history[i], Run(s0, acts).history[j];
            && (AtEnd(a.phase) ==> AtEnd(b.phase))
            && (a.phase == Destroyed ==> b.phase == Destroyed)
            && (Deleting(a) ==> b.deletion == a.deletion)
            && (Deleting(a) && b.phase != a.phase ==> AtEnd(b.phase))
            && (a.phase != Initial ==> b.phase != Initial)
  {
    Reach(s0, acts);
    assert Follows(Run(s0, acts).history[i], Run(s0, acts).history[j]);
  }

  /** While `Create` is called, the copy the call works on carries the finalizer; and if that copy was
      current when read, the stored object still exists and still carries it. */
  lemma CreateUnderFinalizer(s0: State, acts: seq<Action>)
    requires Init(s0) && Legal(s0, acts) && Run(s0, acts).worker.Creating?
    ensures var s := Run(s0, acts);
            && FINALIZER in s.worker.cb.finalizers && !Deleting(s.worker.cb)
            && (s.current ==> !s.gone && s.history != [] && FINALIZER in Latest(s).finalizers)
  {
    Reach(s0, acts);
    var s := Run(s0, acts);
    assert Sound(s.history[s.worker.cb.version]);
  }

  /** Without the cleaner and the reconciler only an object without finalizers leaves. */
  lemma OthersRemove(s: State, a: Action)
    requires Enabled(s, a) && !s.gone && Apply(s, a).gone && !a.CleanerPatch? && !a.Serve?
    ensures Latest(s).finalizers == []
  {
  }

  lemma ServeRemoves(s: State, ok: bool)
    requires Inv(s) && Enabled(s, Serve(ok)) && !s.gone && Apply(s, Serve(ok)).gone
    ensures Latest(s).phase == Initial || Latest(s).phase == Destroyed
  {
    assert s.worker.cb.version + 1 == |s.history|;
    assert Sound(Latest(s)) && WriteOk(Latest(s), s.worker);
  }

  lemma LeavesAt(s: State, a: Action)
    requires Inv(s) && Enabled(s, a) && !s.gone && Apply(s, a).gone
    ensures var b := Latest(s);
            b.phase == Initial || b.phase == Destroyed || (b.phase == Destroying && Overdue(s, b) && a.CleanerPatch?)
  {
    if a.CleanerPatch? {
      assert Follows(s.history[s.doomed.value], Latest(s));
    } else if a.Serve? {
      ServeRemoves(s, a.ok);
    } else {
      OthersRemove(s, a);
      assert Sound(Latest(s));
    }
  }

  /** The only ways out of the store: never initialized, Destroyed, or Destroying for longer than
      the interval after the deletion. */
  lemma LeavesOnlyWhenDone(s0: State, acts: seq<Action>, a: Action)
    requires Init(s0) && Legal(s0, acts) && Enabled(Run(s0, acts), a)
    requires !Run(s0, acts).gone && Apply(Run(s0, acts), a).gone
    ensures var s := Run(s0, acts);
            var b := Latest(s);
            || b.phase == Initial
            || b.phase == Destroyed
            || (b.phase == Destroying && a.CleanerPatch?
                && b.deletion.Some? && s.now > b.deletion.value + s.interval)
  {
    Reach(s0, acts);
    LeavesAt(Run(s0, acts), a);
  }

  /** In every reachable state the removal loop neither panics nor keeps a copy of the finalizer. */
  lemma RemovalExact(s0: State, acts: seq<Action>, v: nat, note: Note)
    requires Init(s0) && Legal(s0, acts) && v < |Run(s0, acts).history|
    ensures var cb := Run(s0, acts).history[v].(preSpec := note);
            && Start(cb) != Panicked
            && (cb.phase == Destroyed && cb.spec != [] ==>
                  Start(cb) == PutObject(cb.(finalizers := Without(cb.finalizers, FINALIZER)), None))
  {
    Reach(s0, acts);
    var h := Run(s0, acts).history;
    StartOk(h, v, note);
    RemoveOnce(h[v].finalizers, FINALIZER);
  }

  // ---- No create after the end ----

  ghost predicate Over(s: State)
    requires s.history != []
  {
    s.gone || AtEnd(Latest(s).phase) || Deleting(Latest(s))
  }

  lemma HistoryGrows(s: State, a: Action)
    requires Enabled(s, a)
    ensures s.gone ==> Apply(s, a).gone
    ensures |s.history| <= |Apply(s, a).history| && Apply(s, a).history[..|s.history|] == s.history
  {
  }

  lemma StartOver(cb: Blade)
    requires AtEnd(cb.phase) || Deleting(cb)
    ensures !Start(cb).Creating?
  {
  }

  lemma CallStaysAway(w: Worker, status: ExpStatus)
    requires Calling(w) && !w.Creating?
    ensures !AfterCall(w, status).Creating?
  {
  }

  lemma WriteStaysAway(w: Worker, served: Option<Blade>)
    requires Writing(w)
    ensures !AfterWrite(w, served).Creating?
  {
  }

  /** A step that starts no call does not bring a call to create. */
  lemma StepStaysAway(s: State, a: Action)
    requires Enabled(s, a) && !a.Begin? && !s.worker.Creating?
    ensures !Apply(s, a).worker.Creating?
  {
    match a
    case Answer(status, _) => CallStaysAway(s.worker, status);
    case Serve(ok) =>
      var t := Commit(s, Merge(Latest(s), s.worker));
      WriteStaysAway(s.worker, None);
      WriteStaysAway(s.worker, Some(Latest(t)));
    case _ =>
  }

  lemma {:induction false} RunStaysAway(s: State, acts: seq<Action>)
    requires Legal(s, acts) && !s.worker.Creating?
    requires forall i :: 0 <= i < |acts| ==> !acts[i].Begin?
    ensures !Run(s, acts).worker.Creating?
    decreases |acts|
  {
    if acts != [] {
      assert !acts[0].Begin?;
      StepStaysAway(s, acts[0]);
      RunStaysAway(Apply(s, acts[0]), acts[1..]);
    }
  }

  lemma OverStep(s: State, a: Action)
    requires Inv(s) && Enabled(s, a) && Over(s)
    ensures Apply(s, a).history != [] && Over(Apply(s, a))
  {
    StepKeeps(s, a);
    HistoryGrows(s, a);
    var t := Apply(s, a);
    var i := |s.history| - 1;
    assert t.history[i] == t.history[..|s.history|][i] == Latest(s);
    assert Follows(t.history[i], Latest(t));
  }

  lemma {:induction false} OverRun(s: State, acts: seq<Action>)
    requires Inv(s) && Legal(s, acts) && Over(s)
    ensures Run(s, acts).history != [] && Over(Run(s, acts))
    decreases |acts|
  {
    if acts != [] {
      OverStep(s, acts[0]);
      StepKeeps(s, acts[0]);
      OverRun(Apply(s, acts[0]), acts[1..]);
    }
  }

  /** A call may start now, with the version current now. */
  ghost predicate CanBegin(s: State) { s.history != [] && !s.gone && Resting(s.worker) }

  ghost function Begun(s: State, note: Note): State
    requires CanBegin(s)
  {
    Apply(s, Begin(|s.history| - 1, note))
  }

  lemma FreshStaysAway(s: State, note: Note, after: seq<Action>)
    requires CanBegin(s) && Over(s) && Legal(Begun(s, note), after)
    requires forall i :: 0 <= i < |after| ==> !after[i].Begin?
    ensures !Run(Begun(s, note), after).worker.Creating?
  {
    StartOver(Latest(s).(preSpec := note));
    RunStaysAway(Begun(s, note), after);
  }

  /** Once the object is deleting, Destroying or Destroyed, however the run goes on: a Reconcile call that
      reads the version then current never calls `Create`, whatever the other calls read and whoever else
      acts meanwhile. */
  lemma NoCreateAfterEnd(s0: State, before: seq<Action>, between: seq<Action>, note: Note, after: seq<Action>)
    requires Init(s0) && Legal(s0, before)
    requires var s1 := Run(s0, before); s1.history != [] && Over(s1) && Legal(s1, between)
    requires var s := Run(Run(s0, before), between); CanBegin(s) && Legal(Begun(s, note), after)
    requires forall i :: 0 <= i < |after| ==> !after[i].Begin?
    ensures !Run(Begun(Run(Run(s0, before), between), note), after).worker.Creating?
  {
    Reach(s0, before);
    OverRun(Run(s0, before), between);
    FreshStaysAway(Run(Run(s0, before), between), note, after);
  }

  /** Which version is read decides: a call creates exactly if the version it reads is Initialized or
      Updating, not deleting, and has experiments; otherwise it never comes to create. */
  lemma CreateExactly(s: State, v: nat, note: Note, after: seq<Action>)
    requires Enabled(s, Begin(v, note)) && Legal(Apply(s, Begin(v, note)), after)
    requires forall i :: 0 <= i < |after| ==> !after[i].Begin?
    ensures var b := s.history[v];
            var creates := b.spec != [] && !Deleting(b) && (b.phase == Initialized || b.phase == Updating);
            && (Apply(s, Begin(v, note)).worker.Creating? <==> creates)
            && (!creates ==> !Run(Apply(s, Begin(v, note)), after).worker.Creating?)
  {
    var t := Apply(s, Begin(v, note));
    if !t.worker.Creating? {
      RunStaysAway(t, after);
    }
  }

  // ---- Why the read must be current ----

  lemma {:induction false} Append(s: State, a: seq<Action>, b: seq<Action>)
    requires Legal(s, a) && Legal(Run(s, a), b)
    ensures Legal(s, a + b) && Run(s, a + b) == Run(Run(s, a), b)
    decreases |a|
  {
    if a == [] {
      assert a + b == b;
    } else {
      assert (a + b)[0] == a[0] && (a + b)[1..] == a[1..] + b;
      Append(Apply(s, a[0]), a[1..], b);
    }
  }

  ghost function Round(v: nat): seq<Action> { [Begin(v, Absent), Serve(true)] }

  lemma TwoSteps(s: State, a: Action, b: Action)
    requires Enabled(s, a) && Enabled(Apply(s, a), b)
    ensures Legal(s, [a, b]) && Run(s, [a, b]) == Apply(Apply(s, a), b)
  {
    var t := Apply(Apply(s, a), b);
    assert [a, b][1..] == [b] && [b][1..] == [];
    assert Legal(t, []) && Run(t, []) == t;
    assert Legal(Apply(s, a), [b]) && Run(Apply(s, a), [b]) == t;
  }

  lemma BeginOnce(s: State)
    requires s.history != [] && !s.gone && Resting(s.worker)
    ensures var begin := Begin(|s.history| - 1, Absent);
            Enabled(s, begin)
            && Apply(s, begin) == s.(worker := Start(Latest(s).(preSpec := Absent)), current := true)
  {
  }

  lemma ServeOnce(s: State, w: Worker)
    requires s.history != [] && s.worker == w && Writing(w) && (w.PutObject? ==> w.undo.None?)
    requires Accepted(s, true, w.cb.version)
    ensures Enabled(s, Serve(true))
    ensures Apply(s, Serve(true)) == Commit(s, Merge(Latest(s), w)).(worker := Idle)
  {
  }

  lemma CommitFrame(s: State, w: Worker, b: Blade)
    requires s.history != []
    ensures Commit(s.(worker := w, current := true), b) == Commit(s, b).(worker := w, current := true)
  {
  }

  lemma ServeFrame(s: State, w: Worker, b: Blade)
    requires s.history != [] && Writing(w) && (w.PutObject? ==> w.undo.None?)
    requires Accepted(s, true, w.cb.version) && b == Merge(Latest(s), w)
    ensures var s1 := s.(worker := w, current := true);
            Enabled(s1, Serve(true)) && Apply(s1, Serve(true)) == Commit(s, b).(worker := Idle, current := true)
  {
    ServeOnce(s.(worker := w, current := true), w);
    CommitFrame(s, w, b);
  }

  /** An undisturbed Reconcile call that makes a single write. */
  lemma OneRound(s: State, w: Worker, b: Blade)
    requires s.history != [] && Latest(s).version + 1 == |s.history| && !s.gone && Resting(s.worker)
    requires w == Start(Latest(s).(preSpec := Absent))
    requires Writing(w) && (w.PutObject? ==> w.undo.None?) && w.cb.version == Latest(s).version
    requires b == Merge(Latest(s), w)
    ensures Legal(s, Round(|s.history| - 1))
    ensures Run(s, Round(|s.history| - 1)) == Commit(s, b).(worker := Idle, current := true)
  {
    var v := |s.history| - 1;
    BeginOnce(s);
    ServeFrame(s, w, b);
    TwoSteps(s, Begin(v, Absent), Serve(true));
  }

  lemma ToFinalizer(s: State, e: ExpSpec) returns (t: State)
    requires Init(s) && s.history[0].spec == [e] && s.history[0].finalizers == []
    ensures Legal(s, Round(0)) && t == Run(s, Round(0))
    ensures Inv(t) && t.worker == Idle && !t.gone && |t.history| == 2
    ensures t.history[1].phase == Initial && t.history[1].spec == [e] && !Deleting(t.history[1])
    ensures t.history[1].finalizers == [FINALIZER]
  {
    InitInv(s);
    var b := Latest(s).(finalizers := [FINALIZER], preSpec := Absent);
    assert [] + [FINALIZER] == [FINALIZER];
    OneRound(s, Start(Latest(s).(preSpec := Absent)), b);
    t := Run(s, Round(0));
    RunKeeps(s, Round(0));
    assert Latest(t) == b.(version := 1);
  }

  lemma ToInitialized(s: State, e: ExpSpec) returns (acts: seq<Action>, t: State)
    requires Init(s) && s.history[0].spec == [e] && s.history[0].finalizers == []
    ensures Legal(s, acts) && t == Run(s, acts)
    ensures Inv(t) && t.worker == Idle && !t.gone && |t.history| == 3
    ensures t.history[2].phase == Initialized && t.history[2].spec == [e] && !Deleting(t.history[2])
    ensures t.history[2].finalizers == [FINALIZER] && t.history[2].statuses == Some([])
  {
    var s1 := ToFinalizer(s, e);
    var b := Latest(s1).(phase := Initialized, statuses := Some([]));
    OneRound(s1, Start(Latest(s1).(preSpec := Absent)), b);
    RunKeeps(s1, Round(1));
    Append(s, Round(0), Round(1));
    acts := Round(0) + Round(1);
    t := Run(s, acts);
    assert Latest(t) == b.(version := 2);
  }

  /** The user deletes the object. */
  lemma ToDeleting(s: State) returns (t: State)
    requires Inv(s) && !s.gone && Latest(s).finalizers != [] && !Deleting(Latest(s))
    ensures t == Apply(s, UserDelete) && Legal(s, [UserDelete]) && t == Run(s, [UserDelete])
    ensures Inv(t) && !t.gone && t.worker == s.worker
    ensures |t.history| == |s.history| + 1 && t.history[..|s.history|] == s.history
    ensures Latest(t) == Latest(s).(deletion := Some(s.now), version := |s.history|)
  {
    t := Apply(s, UserDelete);
    assert [UserDelete][1..] == [] && Legal(t, []);
    StepKeeps(s, UserDelete);
  }

  /** A call on a deleting object whose lists differ in length. */
  lemma ToDestroyed(s: State) returns (t: State)
    requires Inv(s) && !s.gone && s.worker == Idle && Deleting(Latest(s)) && Latest(s).finalizers != []
    requires Latest(s).spec != [] && Latest(s).phase != Destroyed
    requires !(Latest(s).statuses.Some? && |Latest(s).statuses.value| == |Latest(s).spec|)
    ensures Legal(s, Round(|s.history| - 1)) && t == Run(s, Round(|s.history| - 1))
    ensures Inv(t) && !t.gone && t.worker == Idle
    ensures |t.history| == |s.history| + 1 && t.history[..|s.history|] == s.history
    ensures Latest(t) == Latest(s).(phase := Destroyed, version := |s.history|)
  {
    OneRound(s, Start(Latest(s).(preSpec := Absent)), Latest(s).(phase := Destroyed));
    t := Run(s, Round(|s.history| - 1));
    RunKeeps(s, Round(|s.history| - 1));
  }

  /** A call on a Destroyed object that nothing else holds. */
  lemma ToRemoved(s: State) returns (t: State)
    requires Inv(s) && !s.gone && s.worker == Idle && Deleting(Latest(s)) && Latest(s).finalizers == [FINALIZER]
    requires Latest(s).phase == Destroyed && Latest(s).spec != []
    ensures Legal(s, Round(|s.history| - 1)) && t == Run(s, Round(|s.history| - 1))
    ensures t.gone && t.worker == Idle && t.history == s.history
  {
    RemoveOnce([FINALIZER], FINALIZER);
    assert Without([FINALIZER], FINALIZER) == [];
    OneRound(s, Start(Latest(s).(preSpec := Absent)), Latest(s).(finalizers := [], preSpec := Absent));
    t := Run(s, Round(|s.history| - 1));
  }

  lemma ToGone(s: State) returns (acts: seq<Action>)
    requires Inv(s) && s.worker == Idle && !s.gone && |s.history| == 3
    requires Latest(s).phase == Initialized && |Latest(s).spec| == 1 && !Deleting(Latest(s))
    requires Latest(s).finalizers == [FINALIZER] && Latest(s).statuses == Some([])
    ensures Legal(s, acts) && Run(s, acts).gone && Run(s, acts).worker == Idle
    ensures |Run(s, acts).history| >= 3 && Run(s, acts).history[2] == s.history[2]
  {
    var s1 := ToDeleting(s);
    var s2 := ToDestroyed(s1);
    var s3 := ToRemoved(s2);
    Append(s, [UserDelete], Round(3));
    Append(s, [UserDelete] + Round(3), Round(4));
    acts := [UserDelete] + Round(3) + Round(4);
    assert s3.history[2] == s2.history[..4][..3][2] == s1.history[..3][2];
  }

  /** A stale cached copy makes `Create` run for an object that already left the store: initialized,
      deleted, finalized and removed, while the cache still shows the Initialized version. */
  lemma StaleReadCreates(s0: State, e: ExpSpec) returns (acts: seq<Action>)
    requires Init(s0) && s0.history[0].spec == [e] && s0.history[0].finalizers == []
    ensures Legal(s0, acts)
    ensures Run(s0, acts).worker.Creating? && Run(s0, acts).gone && !Run(s0, acts).current
  {
    var up, s1 := ToInitialized(s0, e);
    var down := ToGone(s1);
    var s2 := Run(s1, down);
    var last := [Begin(2, Absent)];
    assert Legal(s2, last) && Run(s2, last) == Apply(s2, last[0]) by {
      assert last[1..] == [] && Legal(Apply(s2, last[0]), []);
    }
    Append(s0, up, down);
    Append(s0, up + down, last);
    acts := up + down + last;
  }
}
