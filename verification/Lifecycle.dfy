/** The life of one ChaosBlade object in the API server, with the reconciler, the timeout goroutines,
    the periodic cleaner and the user acting on it in any interleaving. */
module Lifecycle {
  import opened BladeTypes
  import opened Finalizers
  import opened Reconcile

  /** `history` holds every stored version, at the index of its version number; `gone` says the object
      left the store. Readers go through a cache, so they may get any version of the history. */
  datatype State = State(
    history: seq<Blade>,
    gone: bool,
    worker: Worker,          // the one Reconcile call in progress for this name
    current: bool,             // that call read the version current at the time
    armed: bool,             // some create started a timeout goroutine
    timers: set<nat>,        // versions read by timeout goroutines about to write Destroyed
    doomed: Option<nat>,     // version listed by the cleaner, its patch still to come
    now: nat,
    interval: nat)

  datatype Action =
    | UserEdit(spec: seq<ExpSpec>, note: Note)
    | UserDelete
    | Tick
    | Begin(seen: nat, note: Note)            // the cached copy may carry a preSpec the event filter set
    | Answer(status: ExpStatus, arm: bool)    // the executor answers the pending call
    | Serve(ok: bool)                         // the pending write reaches the server, or fails
    | TimerRead(seen: nat)
    | TimerWrite(seen: nat, ok: bool)
    | TimerDelete(seen: nat)
    | CleanerList(seen: nat)
    | CleanerPatch(ok: bool)

  ghost function Latest(s: State): Blade
    requires s.history != []
  {
    s.history[|s.history| - 1]
  }

  /** The API server stores new content: a no-op is dropped, a deleting object without finalizers
      is removed, anything else becomes the next version. */
  ghost function Commit(s: State, b: Blade): State
    requires s.history != []
  {
    if b.(version := Latest(s).version) == Latest(s) then s
    else if Deleting(b) && b.finalizers == [] then s.(gone := true)
    else s.(history := s.history + [b.(version := |s.history|)])
  }

  /** A delete request: removal without finalizers, otherwise a deletion timestamp, set once. */
  ghost function Delete(s: State): State
    requires s.history != []
  {
    if Latest(s).finalizers == [] then s.(gone := true)
    else if Deleting(Latest(s)) then s
    else Commit(s, Latest(s).(deletion := Some(s.now)))
  }

  ghost predicate Overdue(s: State, b: Blade) {
    b.deletion.Some? && s.now > b.deletion.value + s.interval
  }

  ghost predicate Enabled(s: State, a: Action) {
    && s.history != []
    && match a
       case UserEdit(_, _) => !s.gone
       case UserDelete => !s.gone
       case Tick => true
       case Begin(v, _) => Resting(s.worker) && v < |s.history|
       case Answer(_, _) => Calling(s.worker)
       case Serve(_) => Writing(s.worker)
       case TimerRead(v) => s.armed && v < |s.history| && s.history[v].phase != Destroyed
       case TimerWrite(v, _) => v in s.timers
       case TimerDelete(v) => s.armed && v < |s.history| && s.history[v].phase == Destroyed
       case CleanerList(v) =>
         s.doomed.None? && v < |s.history| && s.history[v].phase == Destroying && Overdue(s, s.history[v])
       case CleanerPatch(_) => s.doomed.Some?
  }

  /** A version-checked write succeeds only against the version it was read from. */
  ghost predicate Accepted(s: State, ok: bool, version: nat) {
    ok && !s.gone && version + 1 == |s.history|
  }

  ghost function Apply(s: State, a: Action): State
    requires Enabled(s, a)
  {
    match a
    case UserEdit(spec, note) => Commit(s, Latest(s).(spec := spec, preSpec := note))
    case UserDelete => Delete(s)
    case Tick => s.(now := s.now + 1)
    case Begin(v, note) =>
      s.(worker := Start(s.history[v].(preSpec := note)), current := !s.gone && v + 1 == |s.history|)
    case Answer(status, arm) =>
      s.(worker := AfterCall(s.worker, status), armed := s.armed || (arm && s.worker.Creating?))
    case Serve(ok) =>
      if Accepted(s, ok, s.worker.cb.version) then
        var t := Commit(s, Merge(Latest(s), s.worker));
        t.(worker := AfterWrite(s.worker, Some(Latest(t))))
      else s.(worker := AfterWrite(s.worker, None))
    case TimerRead(v) => s.(timers := s.timers + {v})
    case TimerWrite(v, ok) =>
      var t := s.(timers := s.timers - {v});
      if Accepted(s, ok, v) then Commit(t, Latest(t).(phase := Destroyed)) else t
    case TimerDelete(_) => if s.gone then s else Delete(s)
    case CleanerList(v) => s.(doomed := Some(v))
    case CleanerPatch(ok) =>
      var t := s.(doomed := None);
      if ok && !s.gone then Commit(t, Latest(t).(finalizers := [])) else t
  }

  ghost predicate Legal(s: State, acts: seq<Action>)
    decreases |acts|
  {
    acts == [] || (Enabled(s, acts[0]) && Legal(Apply(s, acts[0]), acts[1..]))
  }

  ghost function Run(s: State, acts: seq<Action>): State
    requires Legal(s, acts)
    decreases |acts|
  {
    if acts == [] then s else Run(Apply(s, acts[0]), acts[1..])
  }

  /** A user just created the object: no status, and the finalizer at most once. */
  ghost predicate Init(s: State) {
    && |s.history| == 1 && !s.gone && s.worker == Idle && !s.armed && s.timers == {} && s.doomed == None
    && var b := s.history[0];
       b.version == 0 && b.phase == Initial && b.statuses == None && b.deletion == None
       && multiset(b.finalizers)[FINALIZER] <= 1
  }

  // ---- What every version, and every pair of versions, satisfies ----

  ghost predicate Sound(b: Blade) {
    && (b.phase != Initial && b.phase != Destroyed ==> FINALIZER in b.finalizers)
    && (b.phase == Initial ==> b.statuses == None)
    && multiset(b.finalizers)[FINALIZER] <= 1
  }

  /** What never comes back: the end phases, Destroyed, the deletion timestamp, the Initial phase;
      and a deleting object changes phase only into an end phase. */
  ghost predicate Follows(a: Blade, b: Blade) {
    && (AtEnd(a.phase) ==> AtEnd(b.phase))
    && (a.phase == Destroyed ==> b.phase == Destroyed)
    && (Deleting(a) ==> b.deletion == a.deletion && (b.phase == a.phase || AtEnd(b.phase)))
    && (a.phase != Initial ==> b.phase != Initial)
  }

  ghost predicate GoodHistory(h: seq<Blade>) {
    && h != []
    && (forall i :: 0 <= i < |h| ==> h[i].version == i && Sound(h[i]))
    && (forall i, j :: 0 <= i <= j < |h| ==> Follows(h[i], h[j]))
  }

  // ---- What a Reconcile call in progress satisfies, relative to the version it read ----

  ghost predicate WriteOk(base: Blade, w: Worker)
    requires Writing(w)
  {
    var cb := w.cb;
    if w.PutObject? then
      || (w.undo.None? && base.phase == Destroyed && cb.finalizers == Without(base.finalizers, FINALIZER))
      || (w.undo.None? && base.phase == Initial && !Deleting(base) && FINALIZER !in base.finalizers
          && cb.finalizers == base.finalizers + [FINALIZER])
      || (w.undo.Some? && (base.phase == Running || base.phase == Error) && !Deleting(base)
          && cb == base.(preSpec := cb.preSpec))
    else
      || (base.phase == Initial && !Deleting(base) && FINALIZER in base.finalizers && cb.phase == Initialized)
      || ((base.phase == Initialized || base.phase == Updating) && !Deleting(base)
          && (cb.phase == Running || cb.phase == Error))
      || ((base.phase == Running || base.phase == Error) && !Deleting(base)
          && (cb.phase == Updating || cb.phase == Destroying))
      || (base.phase != Destroyed && (base.phase == Destroying || Deleting(base))
          && (cb.phase == Destroyed || (cb.phase == Destroying && base.phase != Initial)))
  }

  ghost predicate WorkerOk(h: seq<Blade>, w: Worker) {
    Resting(w) || (
      && WellFormed(w) && w.cb.version < |h|
      && var base := h[w.cb.version];
         match w
         case Creating(cb, _) =>
           cb == base.(preSpec := cb.preSpec) && !Deleting(base)
           && (base.phase == Initialized || base.phase == Updating)
         case Undoing(cb, _, _, _) => !Deleting(base) && (base.phase == Running || base.phase == Error)
         case Finalizing(cb, _, _) =>
           base.phase != Initial && base.phase != Destroyed && (base.phase == Destroying || Deleting(base))
         case _ => WriteOk(base, w))
  }

  /** A create pass that read the current version still finds the object, with its finalizer,
      and nobody is about to take it away. */
  ghost predicate Guarded(s: State)
    requires s.history != []
  {
    s.worker.Creating? && s.current ==>
      && !s.gone && FINALIZER in Latest(s).finalizers && s.doomed.None?
      && forall i :: 0 <= i < |s.history| ==> s.history[i].phase != Destroying
  }

  ghost predicate Inv(s: State) {
    && GoodHistory(s.history)
    && WorkerOk(s.history, s.worker)
    && Guarded(s)
    && (forall v :: v in s.timers ==> v < |s.history|)
    && (s.doomed.Some? ==>
          && s.doomed.value < |s.history|
          && s.history[s.doomed.value].phase == Destroying && Overdue(s, s.history[s.doomed.value]))
  }

  lemma GoodExtend(h: seq<Blade>, b: Blade)
    requires GoodHistory(h) && Sound(b) && b.version == |h| && Follows(h[|h| - 1], b)
    ensures GoodHistory(h + [b])
  {
    var g := h + [b];
    forall i, j | 0 <= i <= j < |g| ensures Follows(g[i], g[j]) {
      if j == |h| && i < j {
        assert Follows(h[i], h[|h| - 1]);
      }
    }
  }

  lemma CommitHistory(s: State, b: Blade)
    requires GoodHistory(s.history) && Sound(b) && Follows(Latest(s), b)
    ensures var h := Commit(s, b).history;
            GoodHistory(h) && |s.history| <= |h| && forall i :: 0 <= i < |s.history| ==> h[i] == s.history[i]
  {
    GoodExtend(s.history, b.(version := |s.history|));
  }

  lemma CommitGuarded(s: State, b: Blade)
    requires s.history != [] && Guarded(s) && (Deleting(b) && b.finalizers == [] ==> !(s.worker.Creating? && s.current))
    requires s.worker.Creating? && s.current ==> FINALIZER in b.finalizers && b.phase != Destroying
    ensures Guarded(Commit(s, b))
  {
  }

  /** Committing legal content keeps everything a bystander relies on. */
  lemma CommitKeeps(s: State, b: Blade)
    requires Inv(s) && !s.gone
    requires Sound(b) && Follows(Latest(s), b)
    requires s.worker.Creating? && s.current ==> FINALIZER in b.finalizers && b.phase != Destroying
    ensures Inv(Commit(s, b))
  {
    CommitHistory(s, b);
    CommitGuarded(s, b);
    WorkerFrame(s.history, Commit(s, b).history, s.worker);
  }

  lemma WorkerFrame(h: seq<Blade>, g: seq<Blade>, w: Worker)
    requires WorkerOk(h, w) && |h| <= |g| && forall i :: 0 <= i < |h| ==> g[i] == h[i]
    ensures WorkerOk(g, w)
  {
  }

  lemma DeleteKeeps(s: State)
    requires Inv(s) && !s.gone
    ensures Inv(Delete(s))
  {
    if Latest(s).finalizers != [] && !Deleting(Latest(s)) {
      CommitKeeps(s, Latest(s).(deletion := Some(s.now)));
    }
  }

  lemma StartOk(h: seq<Blade>, v: nat, note: Note)
    requires GoodHistory(h) && v < |h|
    ensures WorkerOk(h, Start(h[v].(preSpec := note))) && Start(h[v].(preSpec := note)) != Panicked
  {
    RemoveOnce(h[v].finalizers, FINALIZER);
  }

  lemma BeginKeeps(s: State, v: nat, note: Note)
    requires Inv(s) && Enabled(s, Begin(v, note))
    ensures Inv(Apply(s, Begin(v, note)))
  {
    StartOk(s.history, v, note);
    var t := Apply(s, Begin(v, note));
    if t.worker.Creating? && t.current {
      forall i | 0 <= i < |s.history| ensures s.history[i].phase != Destroying {
        assert Follows(s.history[i], s.history[v]);
      }
    }
  }

  lemma AnswerKeeps(s: State, status: ExpStatus, arm: bool)
    requires Inv(s) && Enabled(s, Answer(status, arm))
    ensures Inv(Apply(s, Answer(status, arm)))
  {
    assert WorkerOk(s.history, AfterCall(s.worker, status));
  }

  lemma WithoutCount(list: seq<string>, s: string)
    ensures multiset(Without(list, s))[s] == 0
  {
  }

  lemma MergeOk(base: Blade, w: Worker)
    requires Sound(base) && Writing(w) && WriteOk(base, w)
    ensures Sound(Merge(base, w)) && Follows(base, Merge(base, w))
  {
    if w.PutObject? && base.phase == Destroyed {
      WithoutCount(base.finalizers, FINALIZER);
    } else if w.PutObject? && base.phase == Initial {
      assert FINALIZER !in multiset(base.finalizers);
    }
  }

  lemma UndoOk(h: seq<Blade>, cb: Blade, prior: seq<ExpSpec>)
    requires cb.version < |h| && !Deleting(h[cb.version])
    requires h[cb.version].phase == Running || h[cb.version].phase == Error
    ensures WorkerOk(h, UndoFrom(cb, prior, 0, false)) && !UndoFrom(cb, prior, 0, false).Creating?
  {
  }

  lemma ReplaceWorker(s: State, w: Worker)
    requires Inv(s) && WorkerOk(s.history, w) && !w.Creating?
    ensures Inv(s.(worker := w))
  {
  }

  lemma CommitLatest(s: State, b: Blade)
    requires GoodHistory(s.history) && !Deleting(b)
    ensures GoodHistory(Commit(s, b).history) ==>
              Latest(Commit(s, b)) == b.(version := |Commit(s, b).history| - 1)
  {
  }

  lemma ServedUndo(s: State, w: Worker, t: State)
    requires GoodHistory(s.history) && w.PutObject? && w.undo.Some? && WriteOk(Latest(s), w)
    requires t == Commit(s, Merge(Latest(s), w)) && GoodHistory(t.history)
    ensures WorkerOk(t.history, UndoFrom(Latest(t), w.undo.value, 0, false))
    ensures !UndoFrom(Latest(t), w.undo.value, 0, false).Creating?
  {
    CommitLatest(s, Merge(Latest(s), w));
    UndoOk(t.history, Latest(t), w.undo.value);
  }

  lemma ServeAccepted(s: State)
    requires Inv(s) && Writing(s.worker) && Accepted(s, true, s.worker.cb.version)
    ensures Inv(Apply(s, Serve(true)))
  {
    var w := s.worker;
    MergeOk(Latest(s), w);
    CommitKeeps(s, Merge(Latest(s), w));
    var t := Commit(s, Merge(Latest(s), w));
    if w.PutObject? && w.undo.Some? {
      ServedUndo(s, w, t);
    }
    ReplaceWorker(t, AfterWrite(w, Some(Latest(t))));
  }

  lemma ServeRefused(s: State, ok: bool)
    requires Inv(s) && Writing(s.worker) && !Accepted(s, ok, s.worker.cb.version)
    ensures Inv(Apply(s, Serve(ok)))
  {
    var w := s.worker;
    if w.PutObject? && w.undo.Some? {
      UndoOk(s.history, w.cb, w.undo.value);
    }
    ReplaceWorker(s, AfterWrite(w, None));
  }

  lemma ServeKeeps(s: State, ok: bool)
    requires Inv(s) && Enabled(s, Serve(ok))
    ensures Inv(Apply(s, Serve(ok)))
  {
    if Accepted(s, ok, s.worker.cb.version) {
      ServeAccepted(s);
    } else {
      ServeRefused(s, ok);
    }
  }

  lemma TimerWriteKeeps(s: State, v: nat, ok: bool)
    requires Inv(s) && Enabled(s, TimerWrite(v, ok))
    ensures Inv(Apply(s, TimerWrite(v, ok)))
  {
    var t := s.(timers := s.timers - {v});
    if Accepted(s, ok, v) {
      CommitKeeps(t, Latest(t).(phase := Destroyed));
    }
  }

  /** The unconditional patch is safe: the object it hits is still deleting and in an end phase,
      so replacing the whole finalizer list removes it. */
  lemma PatchRemoves(s: State)
    requires Inv(s) && !s.gone && Enabled(s, CleanerPatch(true)) && Latest(s).finalizers != []
    ensures Apply(s, CleanerPatch(true)) == s.(doomed := None, gone := true)
    ensures Latest(s).phase == Destroying || Latest(s).phase == Destroyed
    ensures Latest(s).deletion.Some? && s.now > Latest(s).deletion.value + s.interval
  {
    assert Follows(s.history[s.doomed.value], Latest(s));
  }

  lemma PatchKeeps(s: State, ok: bool)
    requires Inv(s) && Enabled(s, CleanerPatch(ok))
    ensures Inv(Apply(s, CleanerPatch(ok)))
  {
    if ok && !s.gone && Latest(s).finalizers != [] {
      PatchRemoves(s);
    }
  }

  lemma StepKeeps(s: State, a: Action)
    requires Inv(s) && Enabled(s, a)
    ensures Inv(Apply(s, a))
  {
    match a
    case UserEdit(spec, note) => CommitKeeps(s, Latest(s).(spec := spec, preSpec := note));
    case UserDelete => DeleteKeeps(s);
    case Tick =>
    case Begin(v, note) => BeginKeeps(s, v, note);
    case Answer(status, arm) => AnswerKeeps(s, status, arm);
    case Serve(ok) => ServeKeeps(s, ok);
    case TimerRead(v) =>
    case TimerWrite(v, ok) => TimerWriteKeeps(s, v, ok);
    case TimerDelete(v) => if !s.gone { DeleteKeeps(s); }
    case CleanerList(v) =>
    case CleanerPatch(ok) => PatchKeeps(s, ok);
  }

  lemma {:induction false} RunKeeps(s: State, acts: seq<Action>)
    requires Inv(s) && Legal(s, acts)
    ensures Inv(Run(s, acts))
    decreases |acts|
  {
    if acts != [] {
      StepKeeps(s, acts[0]);
      RunKeeps(Apply(s, acts[0]), acts[1..]);
    }
  }
}
