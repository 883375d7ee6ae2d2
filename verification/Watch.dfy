/** The event filter, the cached copy it writes `preSpec` on, and the work queue: the same object seen
    when every write succeeds and every read is current. */
module Watch {
  import opened BladeTypes
  import opened Finalizers
  import opened Reconcile
  import opened Passes
  import Lifecycle

  // ---- predicate.go ----

  predicate AcceptCreate(obj: Blade) { !Deleting(obj) && obj.phase == Initial }

  predicate AcceptDelete(obj: Blade) { FINALIZER in obj.finalizers }

  predicate AcceptUpdate(was: Blade, obj: Blade) {
    if obj.spec != was.spec then true
    else if obj.phase == Initial then true
    else if !Deleting(was) && Deleting(obj) then true
    else if obj.phase == Running || obj.phase == Error || obj.phase == Destroying then false
    else if obj.phase != was.phase || obj.statuses != was.statuses then true
    else Deleting(obj) && FINALIZER in obj.finalizers
  }

  /** Which events wake the controller, for all objects. An update: a changed spec; an Initial object; a
      deletion that has just been requested; and, in Initialized, Updating or Destroyed, a changed status or
      a deleting object that still carries the finalizer. */
  lemma FilterExactly(was: Blade, obj: Blade)
    ensures AcceptCreate(obj) <==> obj.deletion.None? && obj.phase == Initial
    ensures AcceptDelete(obj) <==> "finalizer.chaosblade.io" in obj.finalizers
    ensures AcceptUpdate(was, obj) <==>
            || was.spec != obj.spec
            || obj.phase == Initial
            || (was.deletion.None? && obj.deletion.Some?)
            || ((obj.phase == Initialized || obj.phase == Updating || obj.phase == Destroyed)
                && (was.phase != obj.phase || was.statuses != obj.statuses
                    || (obj.deletion.Some? && "finalizer.chaosblade.io" in obj.finalizers)))
  {
  }

  /** The annotation of the cached copy after the filter saw the event: a changed spec makes it the
      old spec, anything else leaves what the server sent. */
  function NoteOf(was: Blade, obj: Blade): Note {
    if obj.spec != was.spec then OldSpec(was.spec) else obj.preSpec
  }

  // ---- Store, cached annotation, queue ----

  datatype View = View(store: Option<Blade>, note: Note, queued: bool)

  /** The server stores `b`; the resulting event goes through the filter. */
  function Post(v: View, b: Blade): View {
    if v.store.None? || b.(version := v.store.value.version) == v.store.value then v
    else if Deleting(b) && b.finalizers == [] then View(None, Absent, v.queued || AcceptDelete(b))
    else
      var obj := b.(version := v.store.value.version + 1);
      View(Some(obj), NoteOf(v.store.value, obj), v.queued || AcceptUpdate(v.store.value, obj))
  }

  /** The rest of a Reconcile call nobody interrupts. The framework recovers a panic into an error and
      queues the request again. */
  ghost function Work(v: View, w: Worker, answers: nat -> ExpStatus, k: nat): View
    requires WellFormed(w)
    decreases w.PutObject?, CallsLeft(w)
  {
    if w.Panicked? then v.(queued := true)
    else if w.Idle? || v.store.None? then v
    else if w.PutStatus? then Post(v, Merge(v.store.value, w))
    else if w.PutObject? then
      var t := Post(v, Merge(v.store.value, w));
      Work(t, AfterWrite(w, t.store), answers, k)
    else Work(v, AfterCall(w, answers(k)), answers, k + 1)
  }

  ghost function ReconcileOnce(v: View, answers: nat -> ExpStatus): View {
    var taken := v.(queued := false);
    if v.store.None? then taken
    else Work(taken, Start(v.store.value.(preSpec := v.note)), answers, 0)
  }

  ghost function DeleteBy(v: View, now: nat): View {
    if v.store.None? then v
    else if v.store.value.finalizers == [] then View(None, Absent, v.queued || AcceptDelete(v.store.value))
    else if Deleting(v.store.value) then v
    else Post(v, v.store.value.(deletion := Some(now)))
  }

  lemma {:induction false} WorkSplit(v: View, w: Worker, answers: nat -> ExpStatus, k: nat)
    requires v.store.Some? && WellFormed(w) && !w.PutObject?
    ensures Work(v, w, answers, k) == Work(v, Finish(w, answers, k), answers, k + CallsLeft(w))
    decreases CallsLeft(w)
  {
    if Calling(w) {
      WorkSplit(v, AfterCall(w, answers(k)), answers, k + 1);
    }
  }

  // ---- Runs ----

  /** `trail` is the spec that created the recorded statuses, followed by every spec set since. */
  datatype Sys = Sys(view: View, trail: seq<seq<ExpSpec>>)

  datatype Act =
    | Edit(spec: seq<ExpSpec>, note: Note)
    | Drop(now: nat)
    | Sync(answers: nat -> ExpStatus)

  ghost predicate Creates(v: View) {
    v.store.Some? && v.store.value.spec != [] && !Deleting(v.store.value)
    && (v.store.value.phase == Initialized || v.store.value.phase == Updating)
  }

  ghost predicate Undoes(v: View) {
    v.store.Some? && v.store.value.spec != [] && !Deleting(v.store.value)
    && (v.store.value.phase == Running || v.store.value.phase == Error)
  }

  ghost function Step(s: Sys, a: Act): Sys {
    if s.view.store.None? then s.(view := s.view.(queued := false))
    else
      var b := s.view.store.value;
      match a
      case Edit(spec, note) =>
        Sys(Post(s.view, b.(spec := spec, preSpec := note)), if spec == b.spec then s.trail else s.trail + [spec])
      case Drop(now) => s.(view := DeleteBy(s.view, now))
      case Sync(answers) =>
        if !s.view.queued then s
        else Sys(ReconcileOnce(s.view, answers), if Creates(s.view) then [b.spec] else s.trail)
  }

  /** The update pass about to run finds an old spec with an entry for every recorded status. */
  ghost predicate Undoable(v: View) {
    && v.note.OldSpec? && v.store.Some? && v.store.value.statuses.Some?
    && |v.store.value.statuses.value| <= |v.note.experiments|
  }

  /** It finds an old spec that is too short, and panics. */
  ghost predicate Panics(v: View) { Undoes(v) && v.note.OldSpec? && !Undoable(v) }

  /** A Reconcile call that is to update finds an old spec. Nothing is asked of the user. */
  ghost predicate Heeded(s: Sys, a: Act) {
    a.Sync? && s.view.queued && Undoes(s.view) ==> s.view.note.OldSpec?
  }

  /** While an update is due the user does not change the annotation alone. */
  ghost predicate Quiet(s: Sys, a: Act) {
    a.Edit? && Undoes(s.view) && |s.trail| >= 2 && a.spec == s.view.store.value.spec ==>
      a.note == s.view.store.value.preSpec
  }

  ghost predicate Init(s: Sys) {
    && s.view.store.Some?
    && var b := s.view.store.value;
       && b.phase == Initial && b.statuses == None && b.deletion == None
       && multiset(b.finalizers)[FINALIZER] <= 1
       && s.trail == [b.spec]
       && s.view == View(Some(b), b.preSpec, AcceptCreate(b))
  }

  ghost predicate SomeFailed(b: Blade) {
    b.statuses.Some? && exists i :: 0 <= i < |b.statuses.value| && !b.statuses.value[i].success
  }

  /** Nothing is left to do: created from the present spec, stopped at a recorded failure to destroy, or
      finished with the finalizer gone. */
  ghost predicate AtRest(b: Blade, trail: seq<seq<ExpSpec>>) {
    || ((b.phase == Running || b.phase == Error) && !Deleting(b) && trail == [b.spec])
    || (b.phase == Destroying && SomeFailed(b))
    || (b.phase == Destroyed && FINALIZER !in b.finalizers)
  }

  /** The statuses of a live object are those of the first spec of the trail, and only an edit wakes the
      controller for it. */
  ghost predicate Recorded(s: Sys)
    requires s.view.store.Some? && |s.trail| >= 1
  {
    var b := s.view.store.value;
    && (b.phase == Running || b.phase == Error ==>
          && b.statuses.Some? && |b.statuses.value| == |s.trail[0]|
          && (!Deleting(b) && s.view.queued ==> |s.trail| >= 2))
    && (b.phase == Destroying ==> SomeFailed(b))
  }

  /** Kept by every run. */
  ghost predicate Inv(s: Sys) {
    && |s.trail| >= 1
    && (s.view.store.Some? ==>
          var b := s.view.store.value;
          && Lifecycle.Sound(b) && (Deleting(b) ==> b.finalizers != [])
          && s.trail[|s.trail| - 1] == b.spec
          && Recorded(s))
  }

  /** Kept as long as every update pass finds an old spec. */
  ghost predicate Awake(s: Sys) {
    s.view.store.Some? ==>
      var b := s.view.store.value;
      b.spec == [] || s.view.queued || AtRest(b, s.trail)
  }

  /** Kept as long as the user leaves the annotation of a due update alone. */
  ghost predicate Noted(s: Sys) {
    Undoes(s.view) && |s.trail| >= 2 ==> s.view.note == OldSpec(s.trail[|s.trail| - 2])
  }

  // ---- What each kind of Reconcile call does to the view ----

  lemma DoneWork(v: View, w: Worker, answers: nat -> ExpStatus, k: nat, done: Worker)
    requires v.store.Some? && WellFormed(w) && !w.PutObject?
    requires done == Finish(w, answers, k) && done.PutStatus?
    ensures Work(v, w, answers, k) == Post(v, Merge(v.store.value, done))
  {
    WorkSplit(v, w, answers, k);
  }

  /** A call that makes one write and nothing else. */
  lemma SyncWrite(v: View, w: Worker, answers: nat -> ExpStatus)
    requires v.store.Some? && w == Start(v.store.value.(preSpec := v.note))
    requires Writing(w) && (w.PutObject? ==> w.undo.None?)
    ensures ReconcileOnce(v, answers) == Post(v.(queued := false), Merge(v.store.value, w))
  {
    var t := Post(v.(queued := false), Merge(v.store.value, w));
    assert AfterWrite(w, t.store) == Idle;
    assert Work(t, Idle, answers, 0) == t;
    assert Work(v.(queued := false), w, answers, 0) == t;
  }

  lemma CreateWork(v: View, answers: nat -> ExpStatus)
    requires Creates(v)
    ensures var b := v.store.value;
            var made := Taken(answers, 0, |b.spec|);
            ReconcileOnce(v, answers)
              == Post(v.(queued := false), b.(statuses := Some(made), phase := CreatedPhase(made)))
  {
    var cb := v.store.value.(preSpec := v.note);
    var made := Taken(answers, 0, |cb.spec|);
    CreatePass(cb, [], answers, 0);
    assert [] + made == made;
    DoneWork(v.(queued := false), CreateFrom(cb, []), answers, 0,
             PutStatus(cb.(statuses := Some(made), phase := CreatedPhase(made))));
  }

  lemma CreatedPhaseIs(answers: nat -> ExpStatus, n: nat)
    ensures CreatedPhase(Taken(answers, 0, n)) == if exists i :: 0 <= i < n && answers(i).success then Running else Error
  {
    var made := Taken(answers, 0, n);
    assert forall i :: 0 <= i < n ==> made[i] == answers(i);
  }

  lemma SyncCreate(v: View, answers: nat -> ExpStatus)
    requires Creates(v)
    ensures var b := v.store.value;
            var made := Taken(answers, 0, |b.spec|);
            var phase := if exists i :: 0 <= i < |b.spec| && answers(i).success then Running else Error;
            var obj := b.(statuses := Some(made), phase := phase, version := b.version + 1);
            ReconcileOnce(v, answers) == View(Some(obj), b.preSpec, false)
  {
    CreateWork(v, answers);
    CreatedPhaseIs(answers, |v.store.value.spec|);
  }

  /** The view after a status write that enters an end phase or Updating. */
  ghost function Ended(b: Blade, statuses: Option<seq<ExpStatus>>, phase: Phase): View {
    View(Some(b.(statuses := statuses, phase := phase, version := b.version + 1)), b.preSpec, phase != Destroying)
  }

  /** An object that a Reconcile call finalizes. */
  ghost predicate Finalizes(v: View) {
    && v.store.Some?
    && var b := v.store.value;
       && b.spec != [] && b.phase != Destroyed && (b.phase == Destroying || Deleting(b))
       && (Deleting(b) ==> b.finalizers != [])
  }

  /** The status write of a finalize call over lists of equal length. */
  ghost function FinalWrite(cb: Blade, got: seq<ExpStatus>): Worker {
    PutStatus(cb.(statuses := Some(got), phase := if AllOk(got) then Destroyed else Destroying))
  }

  lemma FinalizeWork(v: View, answers: nat -> ExpStatus)
    requires Finalizes(v)
    requires v.store.value.statuses.Some? && |v.store.value.statuses.value| == |v.store.value.spec|
    ensures var b := v.store.value;
            ReconcileOnce(v, answers)
              == Post(v.(queued := false), Merge(b, FinalWrite(b.(preSpec := v.note), Taken(answers, 0, |b.spec|))))
  {
    var b := v.store.value;
    var cb := b.(preSpec := v.note);
    var got := Taken(answers, 0, |b.spec|);
    FinalizePass(cb, 0, false, answers, 0);
    assert b.statuses.value[..0] + got == got;
    DoneWork(v.(queued := false), FinalizeFrom(cb, 0, false), answers, 0, FinalWrite(cb, got));
  }

  /** Storing the outcome of a finalize call wakes the controller iff the object became Destroyed. */
  lemma PostFinal(v: View, got: Option<seq<ExpStatus>>, phase: Phase)
    requires Finalizes(v) && !v.queued && AtEnd(phase)
    ensures var b := v.store.value;
            var t := Post(v, b.(statuses := got, phase := phase));
            if phase == Destroyed then t == Ended(b, got, Destroyed)
            else t.store.Some? && !t.queued
                 && t.store.value.(preSpec := b.preSpec, version := b.version) == b.(statuses := got, phase := Destroying)
  {
  }

  lemma SyncUnequal(v: View, answers: nat -> ExpStatus)
    requires Finalizes(v)
    requires !(v.store.value.statuses.Some? && |v.store.value.statuses.value| == |v.store.value.spec|)
    ensures ReconcileOnce(v, answers) == Ended(v.store.value, v.store.value.statuses, Destroyed)
  {
    var b := v.store.value;
    SyncWrite(v, PutStatus(b.(preSpec := v.note, phase := Destroyed)), answers);
    PostFinal(v.(queued := false), b.statuses, Destroyed);
  }

  lemma SyncEqual(v: View, answers: nat -> ExpStatus)
    requires Finalizes(v)
    requires v.store.value.statuses.Some? && |v.store.value.statuses.value| == |v.store.value.spec|
    ensures var b := v.store.value;
            var got := Taken(answers, 0, |b.spec|);
            var t := ReconcileOnce(v, answers);
            if AllOk(got) then t == Ended(b, Some(got), Destroyed)
            else t.store.Some? && !t.queued
                 && t.store.value.(preSpec := b.preSpec, version := b.version) == b.(statuses := Some(got), phase := Destroying)
  {
    var b := v.store.value;
    var got := Taken(answers, 0, |b.spec|);
    FinalizeWork(v, answers);
    PostFinal(v.(queued := false), Some(got), if AllOk(got) then Destroyed else Destroying);
  }

  lemma SyncFinalize(v: View, answers: nat -> ExpStatus)
    requires Finalizes(v)
    ensures var b := v.store.value;
            var n := |b.spec|;
            var t := ReconcileOnce(v, answers);
            if b.statuses.Some? && |b.statuses.value| == n then
              if AllOk(Taken(answers, 0, n)) then t == Ended(b, Some(Taken(answers, 0, n)), Destroyed)
              else t.store.Some? && !t.queued
                   && t.store.value.(preSpec := b.preSpec, version := b.version)
                        == b.(statuses := Some(Taken(answers, 0, n)), phase := Destroying)
            else t == Ended(b, b.statuses, Destroyed)
  {
    var b := v.store.value;
    if b.statuses.Some? && |b.statuses.value| == |b.spec| {
      SyncEqual(v, answers);
    } else {
      SyncUnequal(v, answers);
    }
  }

  lemma UndoTail(v: View, prior: seq<ExpSpec>, answers: nat -> ExpStatus)
    requires Undoes(v) && !v.queued && v.store.value.statuses.Some?
    requires |v.store.value.statuses.value| <= |prior|
    ensures var b := v.store.value;
            var got := Taken(answers, 0, |b.statuses.value|);
            Work(v, UndoFrom(b, prior, 0, false), answers, 0)
              == Ended(b, Some(got), if AllOk(got) then Updating else Destroying)
  {
    var b := v.store.value;
    var got := Taken(answers, 0, |b.statuses.value|);
    UndoPass(b, prior, 0, false, answers, 0);
    assert b.statuses.value[..0] + got == got;
    DoneWork(v, UndoFrom(b, prior, 0, false), answers, 0,
             PutStatus(b.(statuses := Some(got), phase := if AllOk(got) then Updating else Destroying)));
  }

  lemma SyncUndo(v: View, prior: seq<ExpSpec>, answers: nat -> ExpStatus)
    requires Undoes(v) && v.note == OldSpec(prior) && v.store.value.statuses.Some?
    requires |v.store.value.statuses.value| <= |prior|
    ensures var b := v.store.value.(preSpec := OldSpec(prior));
            var got := Taken(answers, 0, |b.statuses.value|);
            var end := Ended(b, Some(got), if AllOk(got) then Updating else Destroying);
            var t := ReconcileOnce(v, answers);
            && t.store.Some? && t.note == end.note && t.queued == end.queued
            && t.store.value.(version := 0) == end.store.value.(version := 0)
  {
    var b := v.store.value;
    var cb := b.(preSpec := v.note);
    var w := PutObject(cb, Some(prior));
    assert Start(cb) == w;
    var taken := v.(queued := false);
    var t := Post(taken, Merge(b, w));
    assert t == View(Some(cb.(version := t.store.value.version)), v.note, false);
    UndoTail(t, prior, answers);
    assert AfterWrite(w, t.store) == UndoFrom(t.store.value, prior, 0, false);
  }

  // ---- Every run ----

  lemma EditInv(s: Sys, spec: seq<ExpSpec>, note: Note)
    requires Inv(s) && s.view.store.Some?
    ensures Inv(Step(s, Edit(spec, note)))
  {
  }

  lemma EditAwake(s: Sys, spec: seq<ExpSpec>, note: Note)
    requires Inv(s) && s.view.store.Some? && Awake(s)
    ensures Awake(Step(s, Edit(spec, note)))
  {
  }

  lemma EditNoted(s: Sys, spec: seq<ExpSpec>, note: Note)
    requires Inv(s) && s.view.store.Some? && Noted(s) && Quiet(s, Edit(spec, note))
    ensures Noted(Step(s, Edit(spec, note)))
  {
  }

  lemma EditKeeps(s: Sys, spec: seq<ExpSpec>, note: Note)
    requires Inv(s) && s.view.store.Some?
    ensures var t := Step(s, Edit(spec, note));
            Inv(t) && (Awake(s) ==> Awake(t)) && (Noted(s) && Quiet(s, Edit(spec, note)) ==> Noted(t))
  {
    EditInv(s, spec, note);
    if Awake(s) {
      EditAwake(s, spec, note);
    }
    if Noted(s) && Quiet(s, Edit(spec, note)) {
      EditNoted(s, spec, note);
    }
  }

  /** A spec edit wakes the controller in every phase, with the old spec on the cached copy. */
  lemma EditWakes(s: Sys, spec: seq<ExpSpec>, note: Note)
    requires Inv(s) && s.view.store.Some? && spec != s.view.store.value.spec
    ensures var t := Step(s, Edit(spec, note)).view;
            t.queued && t.note == OldSpec(s.view.store.value.spec) && t.store.Some? && t.store.value.spec == spec
  {
  }

  lemma DropKeeps(s: Sys, now: nat)
    requires Inv(s) && s.view.store.Some?
    ensures var t := Step(s, Drop(now)); Inv(t) && (Awake(s) ==> Awake(t)) && (Noted(s) ==> Noted(t))
  {
  }

  /** A delete request removes an object without finalizers at once and unseen. Otherwise it wakes the
      controller in every phase, unless the object is being deleted already. */
  lemma DropWakes(s: Sys, now: nat)
    requires Inv(s) && s.view.store.Some?
    ensures var b := s.view.store.value;
            var t := Step(s, Drop(now)).view;
            && (t.store.None? <==> b.finalizers == [])
            && (t.queued <==> s.view.queued || (b.finalizers != [] && !Deleting(b)))
            && (t.store.Some? ==> Deleting(t.store.value) && t.store.value.phase == b.phase)
  {
  }

  lemma SyncCreateKeeps(s: Sys, answers: nat -> ExpStatus)
    requires Inv(s) && s.view.queued && Creates(s.view)
    ensures var t := Step(s, Sync(answers)); Inv(t) && Awake(t) && Noted(t)
  {
    SyncCreate(s.view, answers);
  }

  lemma SyncUndoKeeps(s: Sys, answers: nat -> ExpStatus)
    requires Inv(s) && s.view.queued && Undoes(s.view) && Undoable(s.view)
    ensures var t := Step(s, Sync(answers)); Inv(t) && Awake(t) && Noted(t)
  {
    var ss := s.view.store.value.statuses.value;
    SyncUndo(s.view, s.view.note.experiments, answers);
    FailureTaken(answers, |ss|);
  }

  /** If not all answers of a destroy loop succeed, the statuses it records show it. */
  lemma FailureTaken(answers: nat -> ExpStatus, n: nat)
    ensures AllOk(Taken(answers, 0, n)) || exists i :: 0 <= i < n && !Taken(answers, 0, n)[i].success
  {
  }

  /** The view is the same up to the annotation and the version of the stored object. */
  ghost predicate Alike(v: View, t: View)
    requires v.store.Some?
  {
    && t.store.Some? && t.note == v.note
    && t.store.value.(preSpec := v.store.value.preSpec, version := v.store.value.version) == v.store.value
  }

  /** An update pass without an old spec does nothing, and nobody wakes the controller. */
  lemma SyncIdle(v: View, answers: nat -> ExpStatus)
    requires Undoes(v) && !v.note.OldSpec?
    ensures ReconcileOnce(v, answers) == v.(queued := false)
  {
    assert Start(v.store.value.(preSpec := v.note)) == Idle;
  }

  /** An update pass with too short an old spec panics: it changes neither phase nor statuses, and is
      tried again. */
  lemma SyncPanics(v: View, answers: nat -> ExpStatus)
    requires Panics(v) && v.store.value.statuses.Some?
    ensures var t := ReconcileOnce(v, answers); t.queued && Alike(v, t)
  {
    var b := v.store.value;
    var cb := b.(preSpec := v.note);
    var prior := v.note.experiments;
    var w := PutObject(cb, Some(prior));
    assert Start(cb) == w;
    var t := Post(v.(queued := false), Merge(b, w));
    assert t == View(Some(cb.(version := t.store.value.version)), v.note, false);
    assert AfterWrite(w, t.store) == UndoFrom(t.store.value, prior, 0, false);
    PanicsLater(t, prior, answers);
  }

  lemma PanicsLater(v: View, prior: seq<ExpSpec>, answers: nat -> ExpStatus)
    requires v.store.Some? && v.store.value.statuses.Some? && |prior| < |v.store.value.statuses.value|
    ensures Work(v, UndoFrom(v.store.value, prior, 0, false), answers, 0) == v.(queued := true)
  {
    var w := UndoFrom(v.store.value, prior, 0, false);
    UndoPass(v.store.value, prior, 0, false, answers, 0);
    WorkSplit(v, w, answers, 0);
  }

  lemma SyncIdleKeeps(s: Sys, answers: nat -> ExpStatus)
    requires Inv(s) && s.view.queued && Undoes(s.view) && !s.view.note.OldSpec?
    ensures var t := Step(s, Sync(answers)); Inv(t) && !Awake(t) && (Noted(s) ==> Noted(t))
  {
    SyncIdle(s.view, answers);
  }

  lemma SyncPanicsKeeps(s: Sys, answers: nat -> ExpStatus)
    requires Inv(s) && s.view.queued && Panics(s.view)
    ensures var t := Step(s, Sync(answers));
            Inv(t) && Awake(t) && (Noted(s) ==> Noted(t)) && t.view.queued && Panics(t.view) && Alike(s.view, t.view)
  {
    SyncPanics(s.view, answers);
  }

  lemma SyncEndKeeps(s: Sys, answers: nat -> ExpStatus)
    requires Inv(s) && s.view.queued && s.view.store.Some?
    requires var b := s.view.store.value;
             b.spec != [] && b.phase != Destroyed && (b.phase == Destroying || Deleting(b))
    ensures var t := Step(s, Sync(answers)); Inv(t) && Awake(t) && Noted(t)
  {
    SyncFinalize(s.view, answers);
    FailureTaken(answers, |s.view.store.value.spec|);
  }

  lemma PostDestroyed(v: View, obj: Blade)
    requires v.store.Some? && !v.queued
    requires var b := v.store.value;
             && b.phase == Destroyed && (Deleting(b) ==> b.finalizers != []) && FINALIZER !in obj.finalizers
             && obj == b.(preSpec := obj.preSpec, finalizers := obj.finalizers)
    ensures var t := Post(v, obj);
            && !t.queued
            && (t.store.None? <==> Deleting(obj) && obj.finalizers == [])
            && (t.store.Some? ==> t.store.value.(version := v.store.value.version) == obj)
  {
  }

  /** Removing the finalizer: the object leaves if nothing else holds it, and nobody is woken. */
  lemma SyncDestroyed(v: View, answers: nat -> ExpStatus)
    requires v.store.Some? && v.store.value.spec != [] && v.store.value.phase == Destroyed
    requires multiset(v.store.value.finalizers)[FINALIZER] <= 1
    requires Deleting(v.store.value) ==> v.store.value.finalizers != []
    ensures var b := v.store.value;
            var obj := b.(preSpec := v.note, finalizers := Without(b.finalizers, FINALIZER));
            var t := ReconcileOnce(v, answers);
            && !t.queued
            && (t.store.None? <==> Deleting(b) && obj.finalizers == [])
            && (t.store.Some? ==> t.store.value.(version := b.version) == obj)
  {
    var b := v.store.value;
    var cb := b.(preSpec := v.note, finalizers := Without(b.finalizers, FINALIZER));
    RemoveOnce(b.finalizers, FINALIZER);
    SyncWrite(v, PutObject(cb, None), answers);
    PostDestroyed(v.(queued := false), cb);
  }

  lemma SyncDestroyedKeeps(s: Sys, answers: nat -> ExpStatus)
    requires Inv(s) && s.view.queued && s.view.store.Some?
    requires s.view.store.value.spec != [] && s.view.store.value.phase == Destroyed
    ensures var t := Step(s, Sync(answers)); Inv(t) && Awake(t) && Noted(t)
  {
    var b := s.view.store.value;
    SyncDestroyed(s.view, answers);
    Lifecycle.WithoutCount(b.finalizers, FINALIZER);
  }

  lemma SyncInitialKeeps(s: Sys, answers: nat -> ExpStatus)
    requires Inv(s) && s.view.queued && s.view.store.Some?
    requires var b := s.view.store.value; b.spec != [] && b.phase == Initial && !Deleting(b)
    ensures var t := Step(s, Sync(answers)); Inv(t) && Awake(t) && Noted(t)
  {
    var b := s.view.store.value;
    InitialWrite(b.(preSpec := s.view.note));
    SyncWrite(s.view, Start(b.(preSpec := s.view.note)), answers);
    InitialKeeps(s, Merge(b, Start(b.(preSpec := s.view.note))));
  }

  lemma InitialWrite(cb: Blade)
    requires cb.spec != [] && cb.phase == Initial && !Deleting(cb)
    ensures Start(cb) == if FINALIZER in cb.finalizers then PutStatus(cb.(phase := Initialized, statuses := Some([])))
                         else PutObject(cb.(finalizers := cb.finalizers + [FINALIZER]), None)
  {
  }

  lemma InitialKeeps(s: Sys, obj: Blade)
    requires Inv(s) && s.view.store.Some?
    requires var b := s.view.store.value;
             && b.phase == Initial && !Deleting(b) && b.spec != [] && b.spec == obj.spec
             && obj == if FINALIZER in b.finalizers then b.(phase := Initialized, statuses := Some([]))
                       else b.(preSpec := obj.preSpec, finalizers := b.finalizers + [FINALIZER])
    ensures var t := s.(view := Post(s.view.(queued := false), obj)); Inv(t) && Awake(t) && Noted(t)
  {
    if FINALIZER !in s.view.store.value.finalizers {
      assert FINALIZER !in multiset(s.view.store.value.finalizers);
    }
  }

  lemma SyncKeeps(s: Sys, answers: nat -> ExpStatus)
    requires Inv(s) && s.view.store.Some? && s.view.queued && s.view.store.value.spec != []
    ensures var t := Step(s, Sync(answers));
            Inv(t) && (Awake(t) <==> !Undoes(s.view) || s.view.note.OldSpec?) && (Noted(s) ==> Noted(t))
  {
    var b := s.view.store.value;
    if b.phase == Destroyed {
      SyncDestroyedKeeps(s, answers);
    } else if b.phase == Destroying || Deleting(b) {
      SyncEndKeeps(s, answers);
    } else if b.phase == Initial {
      SyncInitialKeeps(s, answers);
    } else if Creates(s.view) {
      SyncCreateKeeps(s, answers);
    } else if Undoable(s.view) {
      SyncUndoKeeps(s, answers);
    } else if s.view.note.OldSpec? {
      SyncPanicsKeeps(s, answers);
    } else {
      SyncIdleKeeps(s, answers);
    }
  }

  lemma StepKeeps(s: Sys, a: Act)
    requires Inv(s)
    ensures var t := Step(s, a);
            Inv(t) && (Awake(s) && Heeded(s, a) ==> Awake(t)) && (Noted(s) && Quiet(s, a) ==> Noted(t))
  {
    if s.view.store.Some? {
      match a
      case Edit(spec, note) => EditKeeps(s, spec, note);
      case Drop(now) => DropKeeps(s, now);
      case Sync(answers) =>
        if s.view.queued && s.view.store.value.spec != [] {
          SyncKeeps(s, answers);
        }
    }
  }

  ghost function Run(s: Sys, acts: seq<Act>): Sys
    decreases |acts|
  {
    if acts == [] then s else Run(Step(s, acts[0]), acts[1..])
  }

  ghost predicate HeededRun(s: Sys, acts: seq<Act>)
    decreases |acts|
  {
    acts == [] || (Heeded(s, acts[0]) && HeededRun(Step(s, acts[0]), acts[1..]))
  }

  ghost predicate QuietRun(s: Sys, acts: seq<Act>)
    decreases |acts|
  {
    acts == [] || (Quiet(s, acts[0]) && QuietRun(Step(s, acts[0]), acts[1..]))
  }

  lemma {:induction false} RunKeeps(s: Sys, acts: seq<Act>)
    requires Inv(s)
    ensures var t := Run(s, acts);
            Inv(t) && (Awake(s) && HeededRun(s, acts) ==> Awake(t)) && (Noted(s) && QuietRun(s, acts) ==> Noted(t))
    decreases |acts|
  {
    if acts != [] {
      StepKeeps(s, acts[0]);
      RunKeeps(Step(s, acts[0]), acts[1..]);
    }
  }

  lemma InitInv(s: Sys)
    requires Init(s)
    ensures Inv(s) && Awake(s) && Noted(s)
  {
  }

  /** No lost wakeup: if every update pass of a run found an old spec, an object with experiments that nobody is
      about to reconcile has nothing left to do. The user may do anything at any time. */
  lemma NoLostWakeup(s0: Sys, acts: seq<Act>)
    requires Init(s0) && HeededRun(s0, acts)
    requires var v := Run(s0, acts).view; v.store.Some? && v.store.value.spec != [] && !v.queued
    ensures AtRest(Run(s0, acts).view.store.value, Run(s0, acts).trail)
  {
    InitInv(s0);
    RunKeeps(s0, acts);
  }

  /** Exactly so: after any run whatever, a Reconcile call leaves an object that is neither queued nor at
      rest if and only if it is an update pass that finds no old spec. */
  lemma WakeupLostExactly(s0: Sys, acts: seq<Act>, answers: nat -> ExpStatus)
    requires Init(s0)
    requires var v := Run(s0, acts).view; v.store.Some? && v.store.value.spec != [] && v.queued
    ensures var v := Run(s0, acts).view;
            var t := Step(Run(s0, acts), Sync(answers));
            (t.view.store.Some? && !t.view.queued && !AtRest(t.view.store.value, t.trail))
            <==> Undoes(v) && !v.note.OldSpec?
  {
    InitInv(s0);
    RunKeeps(s0, acts);
    SyncKeeps(Run(s0, acts), answers);
    SpecKept(Run(s0, acts), answers);
  }

  /** A Reconcile call never changes the spec. */
  lemma SpecKept(s: Sys, answers: nat -> ExpStatus)
    requires Inv(s) && s.view.store.Some? && s.view.queued && s.view.store.value.spec != []
    ensures var t := Step(s, Sync(answers)).view;
            t.store.Some? ==> t.store.value.spec == s.view.store.value.spec
  {
    SyncKeeps(s, answers);
    var t := Step(s, Sync(answers));
    assert t.trail[|t.trail| - 1] == s.view.store.value.spec;
  }

  // ---- Retrying for ever ----

  /** Without the user, an update pass that panics is tried again for ever: however many Reconcile calls
      follow, the object keeps its phase, statuses and spec, and the next call panics too. */
  lemma {:induction false} PanicRepeats(s: Sys, acts: seq<Act>)
    requires Inv(s) && s.view.queued && Panics(s.view)
    requires forall i :: 0 <= i < |acts| ==> acts[i].Sync?
    ensures var t := Run(s, acts);
            t.view.queued && Panics(t.view) && Alike(s.view, t.view) && t.trail == s.trail
    decreases |acts|
  {
    if acts != [] {
      assert acts[0].Sync?;
      SyncPanicsKeeps(s, acts[0].answers);
      PanicRepeats(Step(s, acts[0]), acts[1..]);
    }
  }

  /** Two spec edits in a row bring it about, the first of them to a shorter spec. */
  lemma TwoEditsPanic(s: Sys, first: seq<ExpSpec>, second: seq<ExpSpec>, note: Note, note': Note)
    requires Inv(s) && Undoes(s.view) && |first| < |s.trail[0]|
    requires first != s.view.store.value.spec && second != first && second != []
    ensures var t := Step(Step(s, Edit(first, note)), Edit(second, note'));
            t.view.queued && Panics(t.view) && Inv(t)
  {
    EditKeeps(s, first, note);
    var s1 := Step(s, Edit(first, note));
    EditKeeps(s1, second, note');
    EditWakes(s, first, note);
    EditWakes(s1, second, note');
  }

  // ---- After a restart ----

  /** The operator restarts: the queue is empty, the cache holds what is stored, and every object arrives as
      a create event. */
  function Restarted(v: View): View {
    if v.store.None? then View(None, Absent, false)
    else View(v.store, v.store.value.preSpec, AcceptCreate(v.store.value))
  }

  lemma {:induction false} NothingQueued(t: Sys, acts: seq<Act>)
    requires t.view.store.Some? && !t.view.queued && forall i :: 0 <= i < |acts| ==> acts[i].Sync?
    ensures Run(t, acts) == t
    decreases |acts|
  {
    if acts != [] {
      assert acts[0].Sync?;
      NothingQueued(t, acts[1..]);
    }
  }

  /** Only an Initial object that is not being deleted is picked up again. Any other stays as it is through
      all Reconcile calls, so it is stranded exactly if it was not at rest. */
  lemma RestartStrands(s: Sys, acts: seq<Act>)
    requires Inv(s) && s.view.store.Some? && s.view.store.value.spec != []
    requires forall i :: 0 <= i < |acts| ==> acts[i].Sync?
    ensures var b := s.view.store.value;
            var t := s.(view := Restarted(s.view));
            if b.phase == Initial && !Deleting(b) then t.view.queued
            else Run(t, acts) == t && (Awake(t) <==> AtRest(b, s.trail))
  {
    var t := s.(view := Restarted(s.view));
    if !t.view.queued {
      NothingQueued(t, acts);
    }
  }

  // ---- Which spec an update pass destroys with ----

  /** The executor is asked to destroy exactly the recorded statuses, each with entry i of `spec`. */
  ghost predicate DestroysAll(calls: seq<Event>, spec: seq<ExpSpec>, ss: seq<ExpStatus>) {
    |calls| == |ss| == |spec| && forall i :: 0 <= i < |ss| ==> calls[i] == CallDestroy(spec[i], ss[i])
  }

  ghost predicate PairingOf(s: Sys, answers: nat -> ExpStatus)
    requires Undoes(s.view) && s.view.note.OldSpec?
  {
    var b := s.view.store.value;
    var cb := b.(preSpec := s.view.note);
    && |s.trail| >= 1 && b.statuses.Some? && |b.statuses.value| == |s.trail[0]|
    && var origin, prior := s.trail[0], s.view.note.experiments;
       var w := UndoFrom(cb, prior, 0, false);
       && Start(cb) == PutObject(cb, Some(prior))
       && WellFormed(w)
       && (Finish(w, answers, 0) == Panicked <==> |prior| < |origin|)
       && (DestroysAll(Calls(w, answers, 0), origin, b.statuses.value) <==> origin <= prior)
  }

  /** After any run, an update pass that finds an old spec destroys with that spec. It stays in range
      exactly when that spec is at least as long as the one that created the statuses, and every status
      meets the entry that created it exactly when the creating spec is a prefix of it. If the user left
      the annotation of due updates alone, it is the spec before the last edit, so one edit since the
      create is enough for both. */
  lemma UpdatePairing(s0: Sys, acts: seq<Act>, answers: nat -> ExpStatus)
    requires Init(s0)
    requires Run(s0, acts).view.queued && Undoes(Run(s0, acts).view)
    ensures var s := Run(s0, acts);
            && (s.view.note.OldSpec? ==> PairingOf(s, answers))
            && (QuietRun(s0, acts) ==>
                  && |s.trail| >= 2 && s.view.note == OldSpec(s.trail[|s.trail| - 2])
                  && (|s.trail| == 2 ==> s.view.note.experiments == s.trail[0]))
  {
    InitInv(s0);
    RunKeeps(s0, acts);
    if Run(s0, acts).view.note.OldSpec? {
      UpdatePairingAt(Run(s0, acts), answers);
    }
  }

  lemma UpdatePairingAt(s: Sys, answers: nat -> ExpStatus)
    requires Inv(s) && s.view.queued && Undoes(s.view) && s.view.note.OldSpec?
    ensures PairingOf(s, answers)
  {
    var b := s.view.store.value;
    var origin, prior, ss := s.trail[0], s.view.note.experiments, b.statuses.value;
    var cb := b.(preSpec := s.view.note);
    var calls := Calls(UndoFrom(cb, prior, 0, false), answers, 0);
    UndoPass(cb, prior, 0, false, answers, 0);
    UndoCalls(cb, prior, 0, false, answers, 0);
    PrefixPairs(calls, origin, prior, ss);
  }

  lemma PrefixPairs(calls: seq<Event>, origin: seq<ExpSpec>, prior: seq<ExpSpec>, ss: seq<ExpStatus>)
    requires Paired(calls, prior, ss, 0) && |ss| == |origin|
    requires |calls| == if |prior| < |ss| then |prior| else |ss|
    ensures DestroysAll(calls, origin, ss) <==> origin <= prior
  {
    if DestroysAll(calls, origin, ss) {
      forall i | 0 <= i < |origin| ensures origin[i] == prior[i] {
        assert calls[i] == CallDestroy(prior[0 + i], ss[0 + i]);
      }
      assert origin == prior[..|origin|];
    } else if origin <= prior {
      forall i | 0 <= i < |ss| ensures calls[i] == CallDestroy(origin[i], ss[i]) {
        assert calls[i] == CallDestroy(prior[0 + i], ss[0 + i]);
      }
    }
  }
}
