/** How long the controller keeps working when the user stops, and what it does on the two standard
    paths: a fresh object, and the deletion of a running one. */
module Settling {
  import opened BladeTypes
  import opened Finalizers
  import opened Reconcile
  import opened Passes
  import opened Watch

  /** At most this many more Reconcile calls. */
  ghost function Rank(b: Blade): nat {
    if b.spec == [] || b.phase == Destroyed then 1
    else if Deleting(b) || b.phase == Destroying then 2
    else if b.phase == Initial then (if FINALIZER in b.finalizers then 2 else 3)
    else if b.phase == Initialized || b.phase == Updating then 1
    else 2
  }

  lemma RankDrops(s: Sys, answers: nat -> ExpStatus)
    requires Inv(s) && s.view.store.Some? && s.view.queued && !Panics(s.view)
    requires Step(s, Sync(answers)).view.queued
    ensures var t := Step(s, Sync(answers)).view;
            t.store.Some? && Rank(t.store.value) < Rank(s.view.store.value) && !Undoes(t)
  {
    var b := s.view.store.value;
    if b.spec != [] {
      if b.phase == Destroyed {
        SyncDestroyed(s.view, answers);
      } else if b.phase == Destroying || Deleting(b) {
        SyncFinalize(s.view, answers);
      } else if b.phase == Initial {
        SyncWrite(s.view, Start(b.(preSpec := s.view.note)), answers);
      } else if Creates(s.view) {
        SyncCreate(s.view, answers);
      } else if Undoable(s.view) {
        SyncUndo(s.view, s.view.note.experiments, answers);
      } else {
        SyncIdle(s.view, answers);
      }
    }
  }

  /** n Reconcile calls in a row; the i-th gets the executor answers `answers(i)`. */
  ghost function Syncs(s: Sys, answers: nat -> nat -> ExpStatus, i: nat, n: nat): Sys
    decreases n
  {
    if n == 0 then s else Syncs(Step(s, Sync(answers(i))), answers, i + 1, n - 1)
  }

  lemma {:induction false} QuietStays(s: Sys, answers: nat -> nat -> ExpStatus, i: nat, n: nat)
    requires !s.view.queued
    ensures Syncs(s, answers, i, n) == s
    decreases n
  {
    if n > 0 {
      assert Step(s, Sync(answers(i))) == s;
      QuietStays(s, answers, i + 1, n - 1);
    }
  }

  lemma {:induction false} SettlesIn(s: Sys, answers: nat -> nat -> ExpStatus, i: nat, n: nat)
    requires Inv(s) && s.view.store.Some? && Rank(s.view.store.value) <= n && !(s.view.queued && Panics(s.view))
    ensures var t := Syncs(s, answers, i, n);
            Inv(t) && !t.view.queued && (Awake(s) && Heeded(s, Sync(answers(i))) ==> Awake(t))
    decreases n
  {
    var t := Step(s, Sync(answers(i)));
    StepKeeps(s, Sync(answers(i)));
    if t.view.queued {
      RankDrops(s, answers(i));
      SettlesIn(t, answers, i + 1, n - 1);
    } else {
      QuietStays(t, answers, i + 1, n - 1);
    }
  }

  lemma IdleAtOnce(s: Sys, answers: nat -> nat -> ExpStatus)
    requires Inv(s) && s.view.store.Some? && !Heeded(s, Sync(answers(0)))
    ensures var t := Syncs(s, answers, 0, 3);
            !t.view.queued && t.view.store.Some? && t.view.store.value.spec != []
            && !AtRest(t.view.store.value, t.trail)
  {
    var t := Step(s, Sync(answers(0)));
    SyncIdleKeeps(s, answers(0));
    SyncIdle(s.view, answers(0));
    QuietStays(t, answers, 1, 2);
    assert Syncs(s, answers, 0, 3) == Syncs(t, answers, 1, 2);
  }

  lemma {:induction false} PanicStays(s: Sys, answers: nat -> nat -> ExpStatus, i: nat, n: nat)
    requires Inv(s) && s.view.queued && Panics(s.view)
    ensures var t := Syncs(s, answers, i, n); Inv(t) && t.view.queued && Panics(t.view)
    decreases n
  {
    if n > 0 {
      SyncPanicsKeeps(s, answers(i));
      PanicStays(Step(s, Sync(answers(i))), answers, i + 1, n - 1);
    }
  }

  /** Once the user stops, whatever happened before and whatever the executor answers: three Reconcile
      calls empty the queue, exactly unless the next one is an update pass that panics. If every update
      pass so far found an old spec, an object that is still there with experiments is then at rest,
      exactly if the next call is no update pass or one with a long enough old spec. */
  lemma Settles(s0: Sys, acts: seq<Act>, answers: nat -> nat -> ExpStatus)
    requires Init(s0) && Run(s0, acts).view.store.Some?
    ensures var v := Run(s0, acts).view;
            var t := Syncs(Run(s0, acts), answers, 0, 3);
            && (!t.view.queued <==> !(v.queued && Panics(v)))
            && (HeededRun(s0, acts) && t.view.store.Some? && t.view.store.value.spec != [] ==>
                  (AtRest(t.view.store.value, t.trail) <==> !(v.queued && Undoes(v)) || Undoable(v)))
  {
    InitInv(s0);
    RunKeeps(s0, acts);
    var s := Run(s0, acts);
    if s.view.queued && Panics(s.view) {
      PanicStays(s, answers, 0, 3);
    } else {
      SettlesIn(s, answers, 0, 3);
      if !Heeded(s, Sync(answers(0))) {
        IdleAtOnce(s, answers);
      }
    }
  }

  /** A fresh object without the finalizer takes exactly three Reconcile calls: finalizer,
      Initialized, create pass; each of the first two writes is an accepted event, the last is not. */
  lemma FreshSettles(s0: Sys, a: nat -> ExpStatus, b: nat -> ExpStatus, c: nat -> ExpStatus)
    requires Init(s0) && s0.view.store.value.spec != [] && FINALIZER !in s0.view.store.value.finalizers
    ensures var spec := s0.view.store.value.spec;
            var s1 := Step(s0, Sync(a));
            var s2 := Step(s1, Sync(b));
            var s3 := Step(s2, Sync(c));
            && s0.view.queued && s1.view.queued && s2.view.queued && !s3.view.queued
            && s1.view.store.Some? && s2.view.store.Some? && s3.view.store.Some?
            && var b0, b1, b2, b3 := s0.view.store.value, s1.view.store.value, s2.view.store.value, s3.view.store.value;
            && b1.phase == Initial && b1.finalizers == b0.finalizers + [FINALIZER]
            && b2.phase == Initialized && b2.statuses == Some([])
            && b3.statuses == Some(Taken(c, 0, |spec|))
            && b3.phase == (if exists i :: 0 <= i < |spec| && c(i).success then Running else Error)
            && b3.spec == spec && s3.trail == [spec]
  {
    InitInv(s0);
    var b0 := s0.view.store.value;
    SyncWrite(s0.view, Start(b0.(preSpec := s0.view.note)), a);
    var s1 := Step(s0, Sync(a));
    var b1 := s1.view.store.value;
    assert b1.finalizers == b0.finalizers + [FINALIZER];
    SyncWrite(s1.view, Start(b1.(preSpec := s1.view.note)), b);
    var s2 := Step(s1, Sync(b));
    assert Creates(s2.view);
    SyncCreate(s2.view, c);
  }

  /** Deleting a running object whose only finalizer is ours and whose destroys succeed removes it
      in exactly two Reconcile calls. */
  lemma DeletedLeaves(s: Sys, now: nat, a: nat -> ExpStatus, b: nat -> ExpStatus)
    requires Inv(s) && s.view.store.Some? && !s.view.queued && s.view.store.value.spec != []
    requires var o := s.view.store.value;
             (o.phase == Running || o.phase == Error) && !Deleting(o) && o.finalizers == [FINALIZER]
    requires AllOk(Taken(a, 0, |s.view.store.value.spec|))
    ensures var s1 := Step(s, Drop(now));
            var s2 := Step(s1, Sync(a));
            var s3 := Step(s2, Sync(b));
            && s1.view.queued && s1.view.store.Some? && s1.view.store.value.phase == s.view.store.value.phase
            && s2.view.queued && s2.view.store.Some? && s2.view.store.value.phase == Destroyed
            && !s3.view.queued && s3.view.store.None?
  {
    var s1 := Step(s, Drop(now));
    DropKeeps(s, now);
    SyncFinalize(s1.view, a);
    SyncEndKeeps(s1, a);
    var s2 := Step(s1, Sync(a));
    assert Without([FINALIZER], FINALIZER) == [];
    SyncDestroyed(s2.view, b);
  }

  // ---- Where the promise ends ----

  /** A live object edited and deleted before any Reconcile call: it keeps phase and statuses. */
  lemma EditedAndDeleted(s: Sys, spec: seq<ExpSpec>, note: Note, now: nat)
    requires Inv(s) && s.view.store.Some?
    requires (s.view.store.value.phase == Running || s.view.store.value.phase == Error) && !Deleting(s.view.store.value)
    ensures var t := Step(Step(s, Edit(spec, note)), Drop(now));
            var b := s.view.store.value;
            && Inv(t) && t.view.store.Some? && t.view.queued
            && t.view.store.value.phase == b.phase && Deleting(t.view.store.value) && t.view.store.value.finalizers != []
            && t.view.store.value.spec == spec && t.view.store.value.statuses == b.statuses
            && b.statuses.Some? && |b.statuses.value| == |s.trail[0]|
  {
    EditKeeps(s, spec, note);
    DropKeeps(Step(s, Edit(spec, note)), now);
  }

  /** The next call on this object writes Destroyed and does nothing else. */
  ghost predicate OnlyWritesDestroyed(v: View, answers: nat -> ExpStatus) {
    && v.store.Some?
    && var cb := v.store.value.(preSpec := v.note);
       Trace(Start(cb), answers, 0, None) == [WriteStatus(cb.(phase := Destroyed))]
  }

  /** Edited to another length than the statuses have, it becomes Destroyed without a single destroy call. */
  lemma EditThenDelete(s: Sys, spec: seq<ExpSpec>, note: Note, now: nat, answers: nat -> ExpStatus)
    requires Inv(s) && s.view.store.Some? && spec != [] && |spec| != |s.trail[0]|
    requires (s.view.store.value.phase == Running || s.view.store.value.phase == Error) && !Deleting(s.view.store.value)
    ensures var t := Step(Step(s, Edit(spec, note)), Drop(now));
            var u := Step(t, Sync(answers));
            && t.view.queued && OnlyWritesDestroyed(t.view, answers)
            && u.view.store.Some? && u.view.store.value.phase == Destroyed
  {
    EditedAndDeleted(s, spec, note, now);
    var t := Step(Step(s, Edit(spec, note)), Drop(now));
    FinalizeSound(t.view.store.value.(preSpec := t.view.note), answers, None);
    SyncFinalize(t.view, answers);
  }

  lemma Different(a: seq<ExpSpec>, b: seq<ExpSpec>) returns (k: nat)
    requires |a| == |b| && a != b
    ensures k < |a| && a[k] != b[k]
  {
    k :| 0 <= k < |a| && a[k] != b[k];
  }

  /** The next call destroys every one of these statuses with the entry of the same index, in order. */
  ghost predicate DestroysEach(v: View, answers: nat -> ExpStatus, spec: seq<ExpSpec>, ss: seq<ExpStatus>) {
    && v.store.Some? && |ss| == |spec|
    && var trace := Trace(Start(v.store.value.(preSpec := v.note)), answers, 0, None);
       |trace| == |spec| + 1 && forall i :: 0 <= i < |spec| ==> trace[i] == CallDestroy(spec[i], ss[i])
  }

  /** Edited to another spec of the same length instead, every recorded experiment is destroyed, but with
      the entries of the new spec: some of them with one it was not created from. */
  lemma EditThenDeleteForeign(s: Sys, spec: seq<ExpSpec>, note: Note, now: nat, answers: nat -> ExpStatus)
    returns (k: nat)
    requires Inv(s) && s.view.store.Some? && spec != [] && |spec| == |s.trail[0]| && spec != s.trail[0]
    requires (s.view.store.value.phase == Running || s.view.store.value.phase == Error) && !Deleting(s.view.store.value)
    ensures var t := Step(Step(s, Edit(spec, note)), Drop(now));
            && t.view.queued && s.view.store.value.statuses.Some?
            && DestroysEach(t.view, answers, spec, s.view.store.value.statuses.value)
            && k < |spec| && spec[k] != s.trail[0][k]
  {
    EditedAndDeleted(s, spec, note, now);
    var t := Step(Step(s, Edit(spec, note)), Drop(now));
    FinalizeSound(t.view.store.value.(preSpec := t.view.note), answers, None);
    k := Different(spec, s.trail[0]);
  }

  /** An annotation-only change between a spec edit and its update pass takes the old spec away: the
      call does nothing, and the object rests with experiments of a spec it no longer has. */
  lemma AnnotationLosesUpdate(s: Sys, spec: seq<ExpSpec>, answers: nat -> ExpStatus)
    requires Inv(s) && s.view.store.Some? && !s.view.queued
    requires var o := s.view.store.value;
             (o.phase == Running || o.phase == Error) && !Deleting(o) && o.spec != []
             && spec != [] && spec != o.spec
    ensures var t := Step(Step(Step(s, Edit(spec, Garbled)), Edit(spec, Absent)), Sync(answers));
            && t.view.store.Some? && !t.view.queued
            && t.view.store.value.phase == s.view.store.value.phase
            && t.view.store.value.statuses == s.view.store.value.statuses
            && !AtRest(t.view.store.value, t.trail)
  {
    EditKeeps(s, spec, Garbled);
    var s2 := Step(Step(s, Edit(spec, Garbled)), Edit(spec, Absent));
    assert Start(s2.view.store.value.(preSpec := s2.view.note)) == Idle;
  }

  /** An object whose spec was edited to an empty list is never touched again: with its finalizer in
      place, deletes and Reconcile calls leave it in the store, in the phase it has. */
  lemma {:induction false} EmptySpecStuck(s: Sys, acts: seq<Act>)
    requires s.view.store.Some? && s.view.store.value.spec == [] && FINALIZER in s.view.store.value.finalizers
    requires forall i :: 0 <= i < |acts| ==> !acts[i].Edit?
    ensures var t := Run(s, acts).view;
            && t.store.Some? && t.store.value.phase == s.view.store.value.phase
            && t.store.value.statuses == s.view.store.value.statuses
            && FINALIZER in t.store.value.finalizers
    decreases |acts|
  {
    if acts != [] {
      assert !acts[0].Edit?;
      EmptySpecStuck(Step(s, acts[0]), acts[1..]);
    }
  }
}
