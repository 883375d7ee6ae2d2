/** What the statuses of a stored version record, and which executor calls stand behind it, in every
    interleaving of the lifecycle, with any writes failing and any reads stale. */
module Records {
  import opened BladeTypes
  import opened Reconcile
  import opened Passes
  import opened Lifecycle
  import opened LifecycleTheorems

  predicate Live(p: Phase) { p == Running || p == Error }

  predicate Creatable(p: Phase) { p == Initialized || p == Updating }

  /** The statuses are those of some create pass, destroyed or not. */
  predicate InUse(p: Phase) { Live(p) || p == Updating || p == Destroying }

  ghost predicate SameLength(a: Option<seq<ExpStatus>>, b: Option<seq<ExpStatus>>) {
    a.Some? && b.Some? && |a.value| == |b.value|
  }

  ghost predicate SomeFailed(b: Blade) {
    b.statuses.Some? && exists k :: 0 <= k < |b.statuses.value| && !b.statuses.value[k].success
  }

  // ---- The history ----

  /** Version i records one status for every experiment of version j, which the last create pass worked
      on: since then the object has been in use, and not live again once it was not. */
  ghost predicate MadeFrom(h: seq<Blade>, i: nat, j: nat) {
    && j < i < |h| && Creatable(h[j].phase) && h[j].spec != [] && Live(h[j + 1].phase)
    && h[i].statuses.Some? && |h[i].statuses.value| == |h[j].spec|
    && (forall k :: j < k <= i ==> InUse(h[k].phase))
    && (forall k, l :: j < k <= l <= i && Live(h[l].phase) ==> Live(h[k].phase))
  }

  /** What version i must be like, given the versions before it. */
  ghost predicate RecordedAt(h: seq<Blade>, i: nat)
    requires i < |h|
  {
    && (h[i].phase == Initialized ==> h[i].statuses == Some([]))
    && (h[i].phase == Destroying ==> SomeFailed(h[i]))
    && (InUse(h[i].phase) ==> exists j :: MadeFrom(h, i, j))
  }

  ghost predicate Recorded(h: seq<Blade>) { forall i :: 0 <= i < |h| ==> RecordedAt(h, i) }

  /** Content that may follow: it carries the statuses of an object in use on, or their results, or it
      records a finished create pass. */
  ghost predicate Proper(was: Blade, b: Blade) {
    && (b.phase == Initialized ==> b.statuses == Some([]))
    && (b.phase == Destroying ==> SomeFailed(b))
    && (InUse(b.phase) ==>
          || (InUse(was.phase) && (Live(b.phase) ==> Live(was.phase)) && SameLength(was.statuses, b.statuses))
          || (Live(b.phase) && Creatable(was.phase) && was.spec != []
              && b.statuses.Some? && |b.statuses.value| == |was.spec|))
  }

  lemma NextMade(h: seq<Blade>, b: Blade)
    requires h != [] && RecordedAt(h, |h| - 1) && Proper(h[|h| - 1], b) && InUse(b.phase)
    ensures exists j :: MadeFrom(h + [b], |h|, j)
  {
    var n := |h| - 1;
    if InUse(h[n].phase) && (Live(b.phase) ==> Live(h[n].phase)) && SameLength(h[n].statuses, b.statuses) {
      var j :| MadeFrom(h, n, j);
      assert MadeFrom(h + [b], |h|, j);
    } else {
      assert MadeFrom(h + [b], |h|, n);
    }
  }

  lemma StillRecorded(h: seq<Blade>, b: Blade, i: nat)
    requires i < |h| && RecordedAt(h, i)
    ensures RecordedAt(h + [b], i)
  {
    if InUse(h[i].phase) {
      var j :| MadeFrom(h, i, j);
      assert MadeFrom(h + [b], i, j);
    }
  }

  lemma ExtendRecorded(h: seq<Blade>, b: Blade)
    requires h != [] && Recorded(h) && Proper(h[|h| - 1], b)
    ensures Recorded(h + [b])
  {
    var g := h + [b];
    forall i | 0 <= i < |g| ensures RecordedAt(g, i) {
      if i < |h| {
        StillRecorded(h, b, i);
      } else if InUse(b.phase) {
        NextMade(h, b);
      }
    }
  }

  lemma CommitRecorded(s: State, b: Blade)
    requires s.history != [] && Recorded(s.history) && Proper(Latest(s), b)
    ensures Recorded(Commit(s, b).history)
  {
    ExtendRecorded(s.history, b.(version := |s.history|));
  }

  /** Content with the same phase and statuses. */
  lemma CarryRecorded(s: State, b: Blade)
    requires s.history != [] && Recorded(s.history) && b.phase == Latest(s).phase && b.statuses == Latest(s).statuses
    ensures Recorded(Commit(s, b).history)
  {
    assert RecordedAt(s.history, |s.history| - 1);
    CommitRecorded(s, b);
  }

  lemma DeleteRecorded(s: State)
    requires s.history != [] && Recorded(s.history)
    ensures Recorded(Delete(s).history)
  {
    CarryRecorded(s, Latest(s).(deletion := Some(s.now)));
  }

  // ---- The call in progress ----

  /** The executor calls the Reconcile call in progress has made. */
  ghost function LogAfter(s: State, a: Action, log: seq<Event>): seq<Event>
    requires Enabled(s, a)
  {
    if a.Begin? then [] else if a.Answer? then log + [PendingCall(s.worker)] else log
  }

  ghost function Log(s: State, acts: seq<Action>, log: seq<Event>): seq<Event>
    requires Legal(s, acts)
    decreases |acts|
  {
    if acts == [] then log else Log(Apply(s, acts[0]), acts[1..], LogAfter(s, acts[0], log))
  }

  ghost predicate CreatesOf(log: seq<Event>, spec: seq<ExpSpec>, n: nat) {
    |log| == n <= |spec| && forall k :: 0 <= k < n ==> log[k] == CallCreate(spec[k])
  }

  ghost predicate DestroysOf(log: seq<Event>, spec: seq<ExpSpec>, ss: seq<ExpStatus>, n: nat) {
    |log| == n <= |spec| && n <= |ss| && forall k :: 0 <= k < n ==> log[k] == CallDestroy(spec[k], ss[k])
  }

  ghost predicate FailedBefore(ss: seq<ExpStatus>, n: nat, failed: bool) {
    n <= |ss| && (failed <==> exists k :: 0 <= k < n && !ss[k].success)
  }

  /** Why Destroyed may be written over version `base`: with lists of equal length every recorded
      experiment was destroyed with its entry, in order, and all of that succeeded; otherwise nothing was. */
  ghost predicate Accounted(base: Blade, final: Option<seq<ExpStatus>>, log: seq<Event>) {
    if base.statuses.Some? && |base.statuses.value| == |base.spec| then
      && DestroysOf(log, base.spec, base.statuses.value, |base.spec|)
      && final.Some? && |final.value| == |base.spec| && AllOk(final.value)
    else log == [] && final == base.statuses
  }

  ghost predicate CreatingOk(base: Blade, cb: Blade, made: seq<ExpStatus>, log: seq<Event>) {
    cb.spec == base.spec && CreatesOf(log, base.spec, |made|)
  }

  ghost predicate UndoingOk(base: Blade, cb: Blade, next: nat, failed: bool) {
    Live(base.phase) && SameLength(base.statuses, cb.statuses) && FailedBefore(cb.statuses.value, next, failed)
  }

  ghost predicate FinalizingOk(base: Blade, cb: Blade, next: nat, failed: bool, log: seq<Event>) {
    && cb.spec == base.spec && SameLength(base.statuses, cb.statuses) && |base.statuses.value| == |base.spec|
    && InUse(base.phase)
    && DestroysOf(log, base.spec, base.statuses.value, next)
    && FailedBefore(cb.statuses.value, next, failed)
    && forall k :: next <= k < |base.spec| ==> cb.statuses.value[k] == base.statuses.value[k]
  }

  ghost predicate WriteTallied(base: Blade, cb: Blade, log: seq<Event>) {
    && (Live(cb.phase) ==>
          && Creatable(base.phase) && base.spec != [] && cb.statuses.Some? && |cb.statuses.value| == |base.spec|
          && CreatesOf(log, base.spec, |base.spec|))
    && (cb.phase == Initialized ==> cb.statuses == Some([]))
    && (cb.phase == Updating || cb.phase == Destroying ==>
          InUse(base.phase) && SameLength(base.statuses, cb.statuses))
    && (cb.phase == Destroying ==> SomeFailed(cb))
    && (cb.phase == Destroyed ==> Accounted(base, cb.statuses, log))
  }

  /** The call in progress agrees with the calls it has made and with the version it read. */
  ghost predicate Tallied(h: seq<Blade>, w: Worker, log: seq<Event>) {
    Resting(w) || (w.cb.version < |h| &&
      var base := h[w.cb.version];
      match w
      case Creating(cb, made) => CreatingOk(base, cb, made, log)
      case Undoing(cb, _, next, failed) => UndoingOk(base, cb, next, failed)
      case Finalizing(cb, next, failed) => FinalizingOk(base, cb, next, failed, log)
      case PutStatus(cb) => WriteTallied(base, cb, log)
      case PutObject(_, _) => true)
  }

  lemma NoneFailed(ss: seq<ExpStatus>)
    ensures FailedBefore(ss, 0, false)
  {
  }

  lemma FinalizeFromOk(base: Blade, cb: Blade, next: nat, failed: bool, log: seq<Event>, h: seq<Blade>)
    requires cb.version < |h| && h[cb.version] == base && FinalizingOk(base, cb, next, failed, log)
    ensures Tallied(h, FinalizeFrom(cb, next, failed), log)
  {
  }

  lemma UndoFromOk(base: Blade, cb: Blade, prior: seq<ExpSpec>, next: nat, failed: bool, log: seq<Event>, h: seq<Blade>)
    requires cb.version < |h| && h[cb.version] == base && UndoingOk(base, cb, next, failed)
    requires next == |cb.statuses.value| || next < |cb.statuses.value|
    ensures Tallied(h, UndoFrom(cb, prior, next, failed), log)
  {
  }

  lemma CreateFromOk(base: Blade, cb: Blade, made: seq<ExpStatus>, log: seq<Event>, h: seq<Blade>)
    requires cb.version < |h| && h[cb.version] == base && CreatingOk(base, cb, made, log)
    requires Creatable(base.phase) && base.spec != []
    ensures Tallied(h, CreateFrom(cb, made), log)
  {
  }

  /** An Initialized version records nothing, so lists of equal length mean an object in use. */
  lemma EqualInUse(h: seq<Blade>, i: nat)
    requires i < |h| && RecordedAt(h, i) && h[i].spec != []
    requires h[i].statuses.Some? && |h[i].statuses.value| == |h[i].spec|
    requires h[i].phase != Initial && h[i].phase != Destroyed
    ensures InUse(h[i].phase)
  {
  }

  lemma StartTallied(h: seq<Blade>, v: nat, note: Note)
    requires GoodHistory(h) && v < |h| && RecordedAt(h, v)
    ensures Tallied(h, Start(h[v].(preSpec := note)), [])
  {
    StartOk(h, v, note);
    var cb := h[v].(preSpec := note);
    if cb.spec != [] && cb.phase != Destroyed {
      if cb.phase == Destroying || Deleting(cb) {
        StartFinalize(h, v, note);
      } else if Creatable(cb.phase) {
        CreateFromOk(h[v], cb, [], [], h);
      }
    }
  }

  lemma StartFinalize(h: seq<Blade>, v: nat, note: Note)
    requires GoodHistory(h) && v < |h| && RecordedAt(h, v)
    requires h[v].spec != [] && h[v].phase != Destroyed && (h[v].phase == Destroying || Deleting(h[v]))
    ensures Tallied(h, Start(h[v].(preSpec := note)), [])
  {
    var b := h[v];
    if b.statuses.Some? && |b.statuses.value| == |b.spec| {
      assert b.phase != Initial by { assert Sound(b); }
      EqualInUse(h, v);
      NoneFailed(b.statuses.value);
      FinalizeFromOk(b, b.(preSpec := note), 0, false, [], h);
    }
  }

  lemma FailedNext(ss: seq<ExpStatus>, n: nat, failed: bool, a: ExpStatus)
    requires n < |ss| && FailedBefore(ss, n, failed)
    ensures FailedBefore(ss[n := a], n + 1, failed || !a.success)
  {
    var tt := ss[n := a];
    if failed {
      var k :| 0 <= k < n && !ss[k].success;
      assert !tt[k].success;
    }
    assert tt[n] == a;
  }

  lemma AnswerTallied(h: seq<Blade>, w: Worker, status: ExpStatus, log: seq<Event>)
    requires Calling(w) && WorkerOk(h, w) && Tallied(h, w, log)
    ensures Tallied(h, AfterCall(w, status), log + [PendingCall(w)])
  {
    var more := log + [PendingCall(w)];
    var base := h[w.cb.version];
    match w
    case Creating(cb, made) =>
      CreateFromOk(base, cb, made + [status], more, h);
    case Undoing(cb, prior, next, failed) =>
      FailedNext(cb.statuses.value, next, failed, status);
      UndoFromOk(base, Noted(cb, next, status), prior, next + 1, failed || !status.success, more, h);
    case Finalizing(cb, next, failed) =>
      FailedNext(cb.statuses.value, next, failed, status);
      FinalizeFromOk(base, Noted(cb, next, status), next + 1, failed || !status.success, more, h);
  }

  lemma UndoStartOk(h: seq<Blade>, cb: Blade, prior: seq<ExpSpec>, log: seq<Event>)
    requires cb.version < |h| && Live(h[cb.version].phase) && RecordedAt(h, cb.version)
    requires cb.statuses == h[cb.version].statuses
    ensures Tallied(h, UndoFrom(cb, prior, 0, false), log)
  {
    NoneFailed(cb.statuses.value);
    UndoFromOk(h[cb.version], cb, prior, 0, false, log, h);
  }

  lemma TalliedFrame(h: seq<Blade>, g: seq<Blade>, w: Worker, log: seq<Event>)
    requires Tallied(h, w, log) && h <= g
    ensures Tallied(g, w, log)
  {
  }

  // ---- Writes ----

  /** A write accepted against the version it was read from is proper. */
  lemma MergeProper(h: seq<Blade>, w: Worker, log: seq<Event>)
    requires h != [] && RecordedAt(h, |h| - 1) && Writing(w) && w.cb.version == |h| - 1 && Tallied(h, w, log)
    requires WriteOk(h[|h| - 1], w)
    ensures Proper(h[|h| - 1], Merge(h[|h| - 1], w))
  {
  }

  lemma ServeRecorded(s: State, ok: bool, log: seq<Event>)
    requires Inv(s) && Recorded(s.history) && Tallied(s.history, s.worker, log) && Enabled(s, Serve(ok))
    ensures Recorded(Apply(s, Serve(ok)).history)
  {
    if Accepted(s, ok, s.worker.cb.version) {
      MergeProper(s.history, s.worker, log);
      CommitRecorded(s, Merge(Latest(s), s.worker));
    }
  }

  /** The object an accepted annotation write gave back is the newest version, in the same phase. */
  lemma ServedTallied(s: State, log: seq<Event>)
    requires Inv(s) && Recorded(s.history) && Writing(s.worker) && Accepted(s, true, s.worker.cb.version)
    requires Recorded(Apply(s, Serve(true)).history)
    ensures Tallied(Apply(s, Serve(true)).history, Apply(s, Serve(true)).worker, log)
  {
    var w := s.worker;
    if w.PutObject? && w.undo.Some? {
      var t := Commit(s, Merge(Latest(s), w));
      MergeOk(Latest(s), w);
      CommitHistory(s, Merge(Latest(s), w));
      CommitLatest(s, Merge(Latest(s), w));
      UndoStartOk(t.history, Latest(t), w.undo.value, log);
    }
  }

  lemma RefusedTallied(s: State, ok: bool, log: seq<Event>)
    requires Inv(s) && Recorded(s.history) && Writing(s.worker) && !Accepted(s, ok, s.worker.cb.version)
    ensures Tallied(s.history, AfterWrite(s.worker, None), log)
  {
    var w := s.worker;
    if w.PutObject? && w.undo.Some? {
      UndoStartOk(s.history, w.cb, w.undo.value, log);
    }
  }

  lemma ServeTallied(s: State, ok: bool, log: seq<Event>)
    requires Inv(s) && Recorded(s.history) && Tallied(s.history, s.worker, log) && Enabled(s, Serve(ok))
    ensures Tallied(Apply(s, Serve(ok)).history, Apply(s, Serve(ok)).worker, log)
  {
    ServeRecorded(s, ok, log);
    if Accepted(s, ok, s.worker.cb.version) {
      ServedTallied(s, log);
    } else {
      RefusedTallied(s, ok, log);
    }
  }

  // ---- Every run ----

  lemma TimerRecorded(s: State, v: nat, ok: bool)
    requires Recorded(s.history) && Enabled(s, TimerWrite(v, ok))
    ensures Recorded(Apply(s, TimerWrite(v, ok)).history)
  {
    CommitRecorded(s.(timers := s.timers - {v}), Latest(s).(phase := Destroyed));
  }

  lemma PatchRecorded(s: State, ok: bool)
    requires Recorded(s.history) && Enabled(s, CleanerPatch(ok))
    ensures Recorded(Apply(s, CleanerPatch(ok)).history)
  {
    CarryRecorded(s.(doomed := None), Latest(s).(finalizers := []));
  }

  /** Nobody but the reconciler changes what the statuses record. */
  lemma OthersRecorded(s: State, a: Action)
    requires Recorded(s.history) && Enabled(s, a) && !a.Serve?
    ensures Recorded(Apply(s, a).history)
  {
    match a
    case UserEdit(spec, note) => CarryRecorded(s, Latest(s).(spec := spec, preSpec := note));
    case UserDelete => DeleteRecorded(s);
    case TimerWrite(v, ok) => TimerRecorded(s, v, ok);
    case TimerDelete(v) => DeleteRecorded(s);
    case CleanerPatch(ok) => PatchRecorded(s, ok);
    case _ =>
  }

  lemma StepRecorded(s: State, a: Action, log: seq<Event>)
    requires Inv(s) && Recorded(s.history) && Tallied(s.history, s.worker, log) && Enabled(s, a)
    ensures Recorded(Apply(s, a).history)
  {
    if a.Serve? {
      ServeRecorded(s, a.ok, log);
    } else {
      OthersRecorded(s, a);
    }
  }

  lemma OthersTallied(s: State, a: Action, log: seq<Event>)
    requires Tallied(s.history, s.worker, log) && Enabled(s, a) && !a.Serve? && !a.Begin? && !a.Answer?
    ensures Tallied(Apply(s, a).history, Apply(s, a).worker, log)
  {
    HistoryGrows(s, a);
    assert Apply(s, a).worker == s.worker;
    TalliedFrame(s.history, Apply(s, a).history, s.worker, log);
  }

  lemma BeginTallied(s: State, v: nat, note: Note)
    requires GoodHistory(s.history) && Recorded(s.history) && Enabled(s, Begin(v, note))
    ensures Tallied(Apply(s, Begin(v, note)).history, Apply(s, Begin(v, note)).worker, [])
  {
    StartTallied(s.history, v, note);
  }

  lemma StepTallied(s: State, a: Action, log: seq<Event>)
    requires Inv(s) && Recorded(s.history) && Tallied(s.history, s.worker, log) && Enabled(s, a)
    ensures Tallied(Apply(s, a).history, Apply(s, a).worker, LogAfter(s, a, log))
  {
    if a.Begin? {
      BeginTallied(s, a.seen, a.note);
    } else if a.Answer? {
      AnswerTallied(s.history, s.worker, a.status, log);
    } else if a.Serve? {
      ServeTallied(s, a.ok, log);
    } else {
      OthersTallied(s, a, log);
    }
  }

  lemma {:induction false} RunRecorded(s: State, acts: seq<Action>, log: seq<Event>)
    requires Inv(s) && Recorded(s.history) && Tallied(s.history, s.worker, log) && Legal(s, acts)
    ensures var t := Run(s, acts); Inv(t) && Recorded(t.history) && Tallied(t.history, t.worker, Log(s, acts, log))
    decreases |acts|
  {
    if acts != [] {
      StepRecorded(s, acts[0], log);
      StepTallied(s, acts[0], log);
      StepKeeps(s, acts[0]);
      RunRecorded(Apply(s, acts[0]), acts[1..], LogAfter(s, acts[0], log));
    }
  }

  lemma Reachable(s0: State, acts: seq<Action>)
    requires Init(s0) && Legal(s0, acts)
    ensures var t := Run(s0, acts); Inv(t) && Recorded(t.history) && Tallied(t.history, t.worker, Log(s0, acts, []))
  {
    InitInv(s0);
    RunRecorded(s0, acts, []);
  }
}
