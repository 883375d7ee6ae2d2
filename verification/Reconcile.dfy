/** One call of the controller's `Reconcile`: what it does between its effects (executor calls and
    API writes), first as a step function of the copy it read, then as the imperative code. */
module Reconcile {
  import opened BladeTypes
  import opened Finalizers

  /** Where the call stands, just before its next effect. `cb` is the local copy. */
  datatype Worker =
    | Idle
    | Panicked
    | PutObject(cb: Blade, undo: Option<seq<ExpSpec>>)              // client.Update
    | PutStatus(cb: Blade)                                          // client.Status().Update
    | Creating(cb: Blade, made: seq<ExpStatus>)                     // Executor.Create on the next entry
    | Undoing(cb: Blade, prior: seq<ExpSpec>, next: nat, failed: bool) // Executor.Destroy with the old spec
    | Finalizing(cb: Blade, next: nat, failed: bool)                // Executor.Destroy with the current spec

  datatype Event =
    | CallCreate(exp: ExpSpec)
    | CallDestroy(exp: ExpSpec, status: ExpStatus)
    | Write(obj: Blade)
    | WriteStatus(obj: Blade)
    | Panic

  /** Phase after a create pass: Running as soon as one experiment was created. */
  function CreatedPhase(made: seq<ExpStatus>): Phase {
    if exists i :: 0 <= i < |made| && made[i].success then Running else Error
  }

  function CreateFrom(cb: Blade, made: seq<ExpStatus>): Worker {
    if |made| < |cb.spec| then Creating(cb, made)
    else PutStatus(cb.(statuses := Some(made), phase := CreatedPhase(made)))
  }

  function UndoFrom(cb: Blade, prior: seq<ExpSpec>, next: nat, failed: bool): Worker {
    if cb.statuses.Some? && next < |cb.statuses.value| then
      if next < |prior| then Undoing(cb, prior, next, failed) else Panicked
    else PutStatus(cb.(phase := if failed then Destroying else Updating))
  }

  function FinalizeFrom(cb: Blade, next: nat, failed: bool): Worker {
    if next < |cb.spec| then Finalizing(cb, next, failed)
    else PutStatus(cb.(phase := if failed then Destroying else Destroyed))
  }

  /** The branches of Reconcile on the copy just read. */
  function Start(cb: Blade): Worker {
    if cb.spec == [] then Idle
    else if cb.phase == Destroyed then
      (match Remove(cb.finalizers, FINALIZER)
       case None => Panicked
       case Some(rest) => PutObject(cb.(finalizers := rest), None))
    else if cb.phase == Destroying || Deleting(cb) then
      if cb.statuses.Some? && |cb.spec| == |cb.statuses.value| then FinalizeFrom(cb, 0, false)
      else PutStatus(cb.(phase := Destroyed))
    else if cb.phase == Initial then
      if FINALIZER in cb.finalizers then PutStatus(cb.(phase := Initialized, statuses := Some([])))
      else PutObject(cb.(finalizers := cb.finalizers + [FINALIZER]), None)
    else if cb.phase == Initialized || cb.phase == Updating then CreateFrom(cb, [])
    else match cb.preSpec
      case OldSpec(prior) => PutObject(cb, Some(prior))
      case _ => Idle
  }

  ghost predicate WellFormed(w: Worker) {
    match w
    case Creating(cb, made) => |made| < |cb.spec|
    case Undoing(cb, prior, next, _) => cb.statuses.Some? && next < |cb.statuses.value| && next < |prior|
    case Finalizing(cb, next, _) =>
      cb.statuses.Some? && |cb.statuses.value| == |cb.spec| && next < |cb.spec|
    case _ => true
  }

  ghost predicate Calling(w: Worker) { WellFormed(w) && (w.Creating? || w.Undoing? || w.Finalizing?) }

  ghost predicate Writing(w: Worker) { w.PutObject? || w.PutStatus? }

  ghost predicate Resting(w: Worker) { w.Idle? || w.Panicked? }

  /** What the server stores for the pending write: Update takes spec, annotations and finalizers,
      Status().Update takes the status only. */
  ghost function Merge(stored: Blade, w: Worker): Blade
    requires Writing(w)
  {
    if w.PutObject? then stored.(spec := w.cb.spec, finalizers := w.cb.finalizers, preSpec := w.cb.preSpec)
    else stored.(phase := w.cb.phase, statuses := w.cb.statuses)
  }

  /** The executor answered the pending call with `status`. */
  function AfterCall(w: Worker, status: ExpStatus): Worker
    requires Calling(w)
  {
    match w
    case Creating(cb, made) => CreateFrom(cb, made + [status])
    case Undoing(cb, prior, next, failed) =>
      UndoFrom(cb.(statuses := Some(cb.statuses.value[next := status])), prior, next + 1, failed || !status.success)
    case Finalizing(cb, next, failed) =>
      FinalizeFrom(cb.(statuses := Some(cb.statuses.value[next := status])), next + 1, failed || !status.success)
  }

  /** The API server served the pending write (Some: the object it returned) or refused it.
      Either way the call goes on; errors are only logged. */
  function AfterWrite(w: Worker, served: Option<Blade>): Worker
    requires Writing(w)
  {
    match w
    case PutObject(cb, Some(prior)) => UndoFrom(if served.Some? then served.value else cb, prior, 0, false)
    case _ => Idle
  }

  function PendingCall(w: Worker): Event
    requires Calling(w)
  {
    match w
    case Creating(cb, made) => CallCreate(cb.spec[|made|])
    case Undoing(cb, prior, next, _) => CallDestroy(prior[next], cb.statuses.value[next])
    case Finalizing(cb, next, _) => CallDestroy(cb.spec[next], cb.statuses.value[next])
  }

  function CallsLeft(w: Worker): nat
    requires WellFormed(w)
  {
    match w
    case Creating(cb, made) => |cb.spec| - |made|
    case Undoing(cb, prior, next, _) => |cb.statuses.value| - next
    case Finalizing(cb, next, _) => |cb.spec| - next
    case _ => 0
  }

  /** Every effect of the rest of the call, in order, when the executor's k-th answer is
      `answers(k)` and the object write is answered with `served`. */
  function Trace(w: Worker, answers: nat -> ExpStatus, k: nat, served: Option<Blade>): seq<Event>
    requires WellFormed(w)
    decreases w.PutObject?, CallsLeft(w)
  {
    match w
    case Idle => []
    case Panicked => [Panic]
    case PutStatus(cb) => [WriteStatus(cb)]
    case PutObject(cb, _) => [Write(cb)] + Trace(AfterWrite(w, served), answers, k, served)
    case _ => [PendingCall(w)] + Trace(AfterCall(w, answers(k)), answers, k + 1, served)
  }

  /** `log` extends `from` by a prefix of `all`; what is missing is the trace of `w`. */
  ghost predicate OnTrack(from: seq<Event>, all: seq<Event>, log: seq<Event>,
                          w: Worker, answers: nat -> ExpStatus, k: nat, served: Option<Blade>)
  {
    WellFormed(w) && from + all == log + Trace(w, answers, k, served)
  }

  lemma Called(from: seq<Event>, all: seq<Event>, log: seq<Event>,
               w: Worker, answers: nat -> ExpStatus, k: nat, served: Option<Blade>)
    requires OnTrack(from, all, log, w, answers, k, served)
    requires Calling(w)
    ensures OnTrack(from, all, log + [PendingCall(w)], AfterCall(w, answers(k)), answers, k + 1, served)
  {
    var rest := Trace(AfterCall(w, answers(k)), answers, k + 1, served);
    assert Trace(w, answers, k, served) == [PendingCall(w)] + rest;
    assert log + ([PendingCall(w)] + rest) == log + [PendingCall(w)] + rest;
  }

  lemma CreatedPhaseSnoc(made: seq<ExpStatus>, status: ExpStatus)
    ensures CreatedPhase(made + [status]) == if status.success then Running else CreatedPhase(made)
  {
    var all := made + [status];
    if status.success {
      assert all[|made|].success;
    } else if i :| 0 <= i < |made| && made[i].success {
      assert all[i].success;
    }
  }

  /** The controller's own form. `cb` is the object `Get` filled in, `log` every effect so far. */
  class Reconciler {
    var cb: Blade
    var log: seq<Event>

    constructor (seen: Blade)
      ensures cb == seen && log == []
    {
      cb := seen;
      log := [];
    }

    /** finalizeChaosBlade. */
    method Finalize(answers: nat -> ExpStatus, served: Option<Blade>)
      requires cb.spec != [] && cb.phase != Destroyed && (cb.phase == Destroying || Deleting(cb))
      modifies this
      ensures log == old(log) + Trace(Start(old(cb)), answers, 0, served)
    {
      var failed := false;
      ghost var all := Trace(Start(cb), answers, 0, served);
      if cb.statuses.Some? && |cb.spec| == |cb.statuses.value| {
        var idx := 0;
        while idx < |cb.spec|
          invariant idx <= |cb.spec| && cb.spec == old(cb.spec)
          invariant cb.statuses.Some? && |cb.spec| == |cb.statuses.value|
          invariant OnTrack(old(log), all, log, FinalizeFrom(cb, idx, failed), answers, idx, served)
        {
          Called(old(log), all, log, FinalizeFrom(cb, idx, failed), answers, idx, served);
          log := log + [CallDestroy(cb.spec[idx], cb.statuses.value[idx])];
          var status := answers(idx);
          if !status.success {
            failed := true;
          }
          cb := cb.(statuses := Some(cb.statuses.value[idx := status]));
          idx := idx + 1;
        }
      }
      cb := cb.(phase := if failed then Destroying else Destroyed);
      log := log + [WriteStatus(cb)];
    }

    /** The create pass of the Initialized and Updating phases. */
    method CreateAll(answers: nat -> ExpStatus, served: Option<Blade>)
      requires cb.spec != [] && !Deleting(cb) && (cb.phase == Initialized || cb.phase == Updating)
      modifies this
      ensures log == old(log) + Trace(Start(old(cb)), answers, 0, served)
    {
      var list: seq<ExpStatus> := [];
      var phase := Error;
      ghost var all := Trace(Start(cb), answers, 0, served);
      for k := 0 to |cb.spec|
        invariant cb == old(cb) && |list| == k && phase == CreatedPhase(list)
        invariant OnTrack(old(log), all, log, CreateFrom(cb, list), answers, k, served)
      {
        Called(old(log), all, log, CreateFrom(cb, list), answers, k, served);
        CreatedPhaseSnoc(list, answers(k));
        log := log + [CallCreate(cb.spec[k])];
        var status := answers(k);
        if status.success {
          phase := Running;
        }
        list := list + [status];
      }
      cb := cb.(statuses := Some(list), phase := phase);
      log := log + [WriteStatus(cb)];
    }

    /** Destroys every recorded experiment with the old spec, then writes the new phase. */
    method UndoEach(prior: seq<ExpSpec>, answers: nat -> ExpStatus, served: Option<Blade>)
      modifies this
      ensures log == old(log) + Trace(UndoFrom(old(cb), prior, 0, false), answers, 0, served)
    {
      var failed := false;
      ghost var all := Trace(UndoFrom(cb, prior, 0, false), answers, 0, served);
      if cb.statuses.Some? {
        var idx := 0;
        while idx < |cb.statuses.value|
          invariant cb.statuses.Some? && idx <= |cb.statuses.value|
          invariant OnTrack(old(log), all, log, UndoFrom(cb, prior, idx, failed), answers, idx, served)
          decreases |cb.statuses.value| - idx
        {
          if idx >= |prior| {
            log := log + [Panic];
            return;
          }
          Called(old(log), all, log, UndoFrom(cb, prior, idx, failed), answers, idx, served);
          log := log + [CallDestroy(prior[idx], cb.statuses.value[idx])];
          var status := answers(idx);
          if !status.success {
            failed := true;
          }
          cb := cb.(statuses := Some(cb.statuses.value[idx := status]));
          idx := idx + 1;
        }
      }
      cb := cb.(phase := if failed then Destroying else Updating);
      log := log + [WriteStatus(cb)];
    }

    /** The update pass of the Running and Error phases: annotate, then destroy with the old spec. */
    method UndoAll(answers: nat -> ExpStatus, served: Option<Blade>)
      requires cb.spec != [] && !Deleting(cb) && (cb.phase == Running || cb.phase == Error)
      modifies this
      ensures log == old(log) + Trace(Start(old(cb)), answers, 0, served)
    {
      match cb.preSpec
      case Absent => return;
      case Garbled => return;
      case OldSpec(prior) =>
        log := log + [Write(cb)];
        if served.Some? {
          cb := served.value;
        }
        ghost var rest := Trace(UndoFrom(cb, prior, 0, false), answers, 0, served);
        UndoEach(prior, answers, served);
        assert log == old(log) + ([Write(old(cb))] + rest);
    }

    /** The whole call: its effects are exactly those of the step function. */
    method Reconcile(answers: nat -> ExpStatus, served: Option<Blade>)
      modifies this
      ensures log == old(log) + Trace(Start(old(cb)), answers, 0, served)
    {
      if |cb.spec| == 0 {
        return;
      }
      if cb.phase == Destroyed {
        var list := new string[|cb.finalizers|](i requires 0 <= i < |cb.finalizers| reads this => cb.finalizers[i]);
        assert list[..] == cb.finalizers;
        var n := RemoveInPlace(list, FINALIZER);
        if n.None? {
          log := log + [Panic];
          return;
        }
        cb := cb.(finalizers := list[..n.value]);
        log := log + [Write(cb)];
        return;
      }
      if cb.phase == Destroying || Deleting(cb) {
        Finalize(answers, served);
        return;
      }
      if cb.phase == Initial {
        var has := Contains(cb.finalizers, FINALIZER);
        if has {
          cb := cb.(phase := Initialized, statuses := Some([]));
          log := log + [WriteStatus(cb)];
        } else {
          cb := cb.(finalizers := cb.finalizers + [FINALIZER]);
          log := log + [Write(cb)];
        }
        return;
      }
      if cb.phase == Initialized || cb.phase == Updating {
        CreateAll(answers, served);
        return;
      }
      UndoAll(answers, served);
    }
  }
}
