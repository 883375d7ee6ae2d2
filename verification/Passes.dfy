/** Closed forms of the three loops of a Reconcile call: which executor calls they make, in which order
    and on which pairs, and what they finally write. */
module Passes {
  import opened BladeTypes
  import opened Reconcile

  /** The next n answers of the executor. */
  function Taken(answers: nat -> ExpStatus, k: nat, n: nat): (r: seq<ExpStatus>)
    ensures |r| == n
    ensures forall i :: 0 <= i < n ==> r[i] == answers(k + i)
  {
    seq(n, i requires 0 <= i < n => answers(k + i))
  }

  ghost predicate AllOk(made: seq<ExpStatus>) {
    forall i :: 0 <= i < |made| ==> made[i].success
  }

  /** The worker after all the calls of the current loop. */
  ghost function Finish(w: Worker, answers: nat -> ExpStatus, k: nat): (r: Worker)
    requires WellFormed(w)
    ensures WellFormed(r) && !Calling(r)
    ensures !w.PutObject? ==> !r.PutObject?
    decreases CallsLeft(w)
  {
    if Calling(w) then Finish(AfterCall(w, answers(k)), answers, k + 1) else w
  }

  ghost function Calls(w: Worker, answers: nat -> ExpStatus, k: nat): seq<Event>
    requires WellFormed(w)
    decreases CallsLeft(w)
  {
    if Calling(w) then [PendingCall(w)] + Calls(AfterCall(w, answers(k)), answers, k + 1) else []
  }

  lemma {:induction false} TraceSplit(w: Worker, answers: nat -> ExpStatus, k: nat, served: Option<Blade>)
    requires WellFormed(w) && !w.PutObject?
    ensures Trace(w, answers, k, served) ==
              Calls(w, answers, k) + Trace(Finish(w, answers, k), answers, k + CallsLeft(w), served)
    decreases CallsLeft(w)
  {
    if Calling(w) {
      var x := AfterCall(w, answers(k));
      TraceSplit(x, answers, k + 1, served);
      assert Trace(w, answers, k, served) == [PendingCall(w)] + Trace(x, answers, k + 1, served);
    }
  }

  lemma TakenStep(answers: nat -> ExpStatus, k: nat, n: nat)
    requires n > 0
    ensures Taken(answers, k, n) == [answers(k)] + Taken(answers, k + 1, n - 1)
    ensures AllOk(Taken(answers, k, n)) <==> answers(k).success && AllOk(Taken(answers, k + 1, n - 1))
  {
    var got, rest := Taken(answers, k, n), Taken(answers, k + 1, n - 1);
    assert got[0] == answers(k);
    assert forall i :: 0 <= i < n - 1 ==> rest[i] == got[i + 1];
  }

  lemma TakenMore(made: seq<ExpStatus>, answers: nat -> ExpStatus, k: nat, n: nat)
    requires n > 0
    ensures made + Taken(answers, k, n) == made + [answers(k)] + Taken(answers, k + 1, n - 1)
  {
    TakenStep(answers, k, n);
  }

  lemma {:induction false} CreatePass(cb: Blade, made: seq<ExpStatus>, answers: nat -> ExpStatus, k: nat)
    requires |made| <= |cb.spec|
    ensures var w := CreateFrom(cb, made);
            var all := made + Taken(answers, k, |cb.spec| - |made|);
            && WellFormed(w)
            && Finish(w, answers, k) == PutStatus(cb.(
                 statuses := Some(all),
                 phase := if exists i :: 0 <= i < |all| && all[i].success then Running else Error))
    decreases |cb.spec| - |made|
  {
    var n := |cb.spec| - |made|;
    if n > 0 {
      TakenMore(made, answers, k, n);
      CreatePass(cb, made + [answers(k)], answers, k + 1);
    } else {
      assert made + Taken(answers, k, 0) == made;
    }
  }

  /** Create is called once for every experiment still to be made, in order. */
  lemma {:induction false} CreateCalls(cb: Blade, made: seq<ExpStatus>, answers: nat -> ExpStatus, k: nat)
    requires |made| <= |cb.spec|
    ensures var calls := Calls(CreateFrom(cb, made), answers, k);
            |calls| == |cb.spec| - |made| && forall i :: 0 <= i < |calls| ==> calls[i] == CallCreate(cb.spec[|made| + i])
    decreases |cb.spec| - |made|
  {
    if |made| < |cb.spec| {
      CreateCalls(cb, made + [answers(k)], answers, k + 1);
      var more := Calls(CreateFrom(cb, made + [answers(k)]), answers, k + 1);
      assert Calls(CreateFrom(cb, made), answers, k) == [CallCreate(cb.spec[|made|])] + more;
    }
  }

  lemma Refill(ss: seq<ExpStatus>, next: nat, a: ExpStatus, rest: seq<ExpStatus>)
    requires next < |ss|
    ensures ss[next := a][..next + 1] + rest == ss[..next] + ([a] + rest)
  {
  }

  /** Status `next` replaced by the answer, which is what the next round of a destroy loop works on. */
  ghost function Noted(cb: Blade, next: nat, a: ExpStatus): Blade
    requires cb.statuses.Some? && next < |cb.statuses.value|
  {
    cb.(statuses := Some(cb.statuses.value[next := a]))
  }

  ghost predicate Paired(calls: seq<Event>, spec: seq<ExpSpec>, ss: seq<ExpStatus>, next: nat) {
    && next + |calls| <= |spec| && next + |calls| <= |ss|
    && forall i :: 0 <= i < |calls| ==> calls[i] == CallDestroy(spec[next + i], ss[next + i])
  }

  lemma PairedStep(calls: seq<Event>, spec: seq<ExpSpec>, ss: seq<ExpStatus>, next: nat, a: ExpStatus)
    requires next < |spec| && next < |ss|
    requires Paired(calls, spec, ss[next := a], next + 1)
    ensures Paired([CallDestroy(spec[next], ss[next])] + calls, spec, ss, next)
  {
    var all := [CallDestroy(spec[next], ss[next])] + calls;
    forall i | 0 <= i < |all| ensures all[i] == CallDestroy(spec[next + i], ss[next + i]) {
      if i > 0 {
        assert all[i] == calls[i - 1];
        assert ss[next := a][next + 1 + (i - 1)] == ss[next + i];
      }
    }
  }

  lemma {:induction false} FinalizeCalls(cb: Blade, next: nat, failed: bool, answers: nat -> ExpStatus, k: nat)
    requires cb.statuses.Some? && |cb.statuses.value| == |cb.spec| && next <= |cb.spec|
    ensures var calls := Calls(FinalizeFrom(cb, next, failed), answers, k);
            |calls| == |cb.spec| - next && Paired(calls, cb.spec, cb.statuses.value, next)
    decreases |cb.spec| - next
  {
    if next < |cb.spec| {
      var a := answers(k);
      var more := FinalizeFrom(Noted(cb, next, a), next + 1, failed || !a.success);
      FinalizeCalls(Noted(cb, next, a), next + 1, failed || !a.success, answers, k + 1);
      PairedStep(Calls(more, answers, k + 1), cb.spec, cb.statuses.value, next, a);
    }
  }

  lemma {:induction false} FinalizePass(cb: Blade, next: nat, failed: bool, answers: nat -> ExpStatus, k: nat)
    requires cb.statuses.Some? && |cb.statuses.value| == |cb.spec| && next <= |cb.spec|
    ensures var w := FinalizeFrom(cb, next, failed);
            var got := Taken(answers, k, |cb.spec| - next);
            && WellFormed(w)
            && Finish(w, answers, k) == PutStatus(cb.(
                 statuses := Some(cb.statuses.value[..next] + got),
                 phase := if failed || !AllOk(got) then Destroying else Destroyed))
    decreases |cb.spec| - next
  {
    var n := |cb.spec| - next;
    var ss := cb.statuses.value;
    if n > 0 {
      var a := answers(k);
      FinalizePass(Noted(cb, next, a), next + 1, failed || !a.success, answers, k + 1);
      TakenStep(answers, k, n);
      Refill(ss, next, a, Taken(answers, k + 1, n - 1));
    } else {
      assert ss[..next] + Taken(answers, k, 0) == ss;
    }
  }

  /** Undoing pairs status i with entry i of the old spec, as far as that spec reaches. */
  lemma {:induction false} UndoCalls(cb: Blade, prior: seq<ExpSpec>, next: nat, failed: bool, answers: nat -> ExpStatus, k: nat)
    requires cb.statuses.Some? && next <= |cb.statuses.value| && next <= |prior|
    ensures var calls := Calls(UndoFrom(cb, prior, next, failed), answers, k);
            && Paired(calls, prior, cb.statuses.value, next)
            && next + |calls| == if |prior| < |cb.statuses.value| then |prior| else |cb.statuses.value|
    decreases |cb.statuses.value| - next
  {
    if next < |cb.statuses.value| && next < |prior| {
      var a := answers(k);
      var more := UndoFrom(Noted(cb, next, a), prior, next + 1, failed || !a.success);
      UndoCalls(Noted(cb, next, a), prior, next + 1, failed || !a.success, answers, k + 1);
      PairedStep(Calls(more, answers, k + 1), prior, cb.statuses.value, next, a);
    }
  }

  /** It ends with the new phase, or in a panic exactly when the old spec is too short. */
  lemma {:induction false} UndoPass(cb: Blade, prior: seq<ExpSpec>, next: nat, failed: bool, answers: nat -> ExpStatus, k: nat)
    requires cb.statuses.Some? && next <= |cb.statuses.value| && next <= |prior|
    ensures var w := UndoFrom(cb, prior, next, failed);
            var got := Taken(answers, k, |cb.statuses.value| - next);
            Finish(w, answers, k) == (
              if |prior| < |cb.statuses.value| then Panicked
              else PutStatus(cb.(
                statuses := Some(cb.statuses.value[..next] + got),
                phase := if failed || !AllOk(got) then Destroying else Updating)))
    decreases |cb.statuses.value| - next
  {
    var ss := cb.statuses.value;
    var n := |ss| - next;
    if n > 0 && next < |prior| {
      var a := answers(k);
      UndoPass(Noted(cb, next, a), prior, next + 1, failed || !a.success, answers, k + 1);
      TakenStep(answers, k, n);
      Refill(ss, next, a, Taken(answers, k + 1, n - 1));
    } else if n == 0 {
      assert ss[..next] + Taken(answers, k, 0) == ss;
    }
  }

  lemma TakenOk(answers: nat -> ExpStatus, n: nat)
    ensures AllOk(Taken(answers, 0, n)) <==> forall i :: 0 <= i < n ==> answers(i).success
    ensures (exists i :: 0 <= i < n && Taken(answers, 0, n)[i].success) <==> exists i :: 0 <= i < n && answers(i).success
  {
    var got := Taken(answers, 0, n);
    assert forall i :: 0 <= i < n ==> got[i] == answers(i);
  }

  /** A create pass: Create once per experiment, in order, then one status write of all the answers, with
      Running iff some of them succeeded and Error otherwise. */
  lemma CreateSound(cb: Blade, answers: nat -> ExpStatus, served: Option<Blade>)
    requires cb.spec != [] && !Deleting(cb) && (cb.phase == Initialized || cb.phase == Updating)
    ensures var trace := Trace(Start(cb), answers, 0, served);
            var n := |cb.spec|;
            && |trace| == n + 1
            && (forall i :: 0 <= i < n ==> trace[i] == CallCreate(cb.spec[i]))
            && trace[n] == WriteStatus(cb.(statuses := Some(Taken(answers, 0, n)),
                 phase := if exists i :: 0 <= i < n && answers(i).success then Running else Error))
  {
    var n := |cb.spec|;
    var got := Taken(answers, 0, n);
    CreatePass(cb, [], answers, 0);
    CreateCalls(cb, [], answers, 0);
    TraceSplit(CreateFrom(cb, []), answers, 0, served);
    assert [] + got == got;
    TakenOk(answers, n);
  }

  /** The effects of the destroy loop of an update pass over these statuses: up to the end of the old spec,
      then the panic, or all of them and the status write. */
  ghost predicate UndoEffects(trace: seq<Event>, cb: Blade, prior: seq<ExpSpec>, answers: nat -> ExpStatus)
    requires cb.statuses.Some?
  {
    var ss := cb.statuses.value;
    var n := if |prior| < |ss| then |prior| else |ss|;
    && |trace| == n + 1
    && (forall i :: 0 <= i < n ==> trace[i] == CallDestroy(prior[i], ss[i]))
    && trace[n] == if |prior| < |ss| then Panic else
         WriteStatus(cb.(statuses := Some(Taken(answers, 0, n)),
           phase := if forall i :: 0 <= i < n ==> answers(i).success then Updating else Destroying))
  }

  /** The loop ends with its last effect. */
  lemma UndoEnds(cb: Blade, prior: seq<ExpSpec>, answers: nat -> ExpStatus, served: Option<Blade>)
    requires cb.statuses.Some?
    ensures var w := UndoFrom(cb, prior, 0, false);
            var got := Taken(answers, 0, |cb.statuses.value|);
            Trace(w, answers, 0, served) == Calls(w, answers, 0) + [
              if |prior| < |cb.statuses.value| then Panic
              else WriteStatus(cb.(statuses := Some(got), phase := if AllOk(got) then Updating else Destroying))]
  {
    var got := Taken(answers, 0, |cb.statuses.value|);
    UndoPass(cb, prior, 0, false, answers, 0);
    TraceSplit(UndoFrom(cb, prior, 0, false), answers, 0, served);
    assert cb.statuses.value[..0] + got == got;
  }

  lemma UndoTrace(cb: Blade, prior: seq<ExpSpec>, answers: nat -> ExpStatus, served: Option<Blade>)
    requires cb.statuses.Some?
    ensures UndoEffects(Trace(UndoFrom(cb, prior, 0, false), answers, 0, served), cb, prior, answers)
  {
    UndoEnds(cb, prior, answers, served);
    UndoCalls(cb, prior, 0, false, answers, 0);
    TakenOk(answers, |cb.statuses.value|);
  }

  /** An update pass: without an old spec nothing at all; otherwise one object write and then, whether the
      server took that write or refused it, the destroy loop with the old spec, over the object the server
      gave back or else the copy as it was read. */
  lemma UpdateSound(cb: Blade, answers: nat -> ExpStatus, served: Option<Blade>)
    requires cb.spec != [] && !Deleting(cb) && (cb.phase == Running || cb.phase == Error)
    requires cb.statuses.Some? && (served.Some? ==> served.value.statuses.Some?)
    ensures var trace := Trace(Start(cb), answers, 0, served);
            if cb.preSpec.OldSpec? then
              && trace != [] && trace[0] == Write(cb)
              && UndoEffects(trace[1..], if served.Some? then served.value else cb, cb.preSpec.experiments, answers)
            else trace == []
  {
    if cb.preSpec.OldSpec? {
      var prior := cb.preSpec.experiments;
      var base := if served.Some? then served.value else cb;
      UndoTrace(base, prior, answers, served);
      assert Trace(Start(cb), answers, 0, served) == [Write(cb)] + Trace(UndoFrom(base, prior, 0, false), answers, 0, served);
    }
  }

  lemma FinalizeTrace(cb: Blade, answers: nat -> ExpStatus, served: Option<Blade>)
    requires cb.statuses.Some? && |cb.statuses.value| == |cb.spec|
    ensures var w := FinalizeFrom(cb, 0, false);
            var calls := Calls(w, answers, 0);
            var got := Taken(answers, 0, |cb.spec|);
            && |calls| == |cb.spec| && Paired(calls, cb.spec, cb.statuses.value, 0)
            && Trace(w, answers, 0, served) == calls + [WriteStatus(cb.(
                 statuses := Some(got), phase := if AllOk(got) then Destroyed else Destroying))]
  {
    var got := Taken(answers, 0, |cb.spec|);
    FinalizePass(cb, 0, false, answers, 0);
    FinalizeCalls(cb, 0, false, answers, 0);
    TraceSplit(FinalizeFrom(cb, 0, false), answers, 0, served);
    assert cb.statuses.value[..0] + got == got;
  }

  /** finalizeChaosBlade on lists of equal length: Destroy once per index, in order, on matching pairs;
      Destroyed is written iff every call succeeded. On lists of different length nothing is destroyed
      and Destroyed is written all the same. */
  lemma FinalizeSound(cb: Blade, answers: nat -> ExpStatus, served: Option<Blade>)
    requires cb.spec != [] && cb.phase != Destroyed && (cb.phase == Destroying || Deleting(cb))
    ensures var trace := Trace(Start(cb), answers, 0, served);
            var n := |cb.spec|;
            if cb.statuses.Some? && |cb.statuses.value| == n then
              && |trace| == n + 1
              && (forall i :: 0 <= i < n ==> trace[i] == CallDestroy(cb.spec[i], cb.statuses.value[i]))
              && trace[n] == WriteStatus(cb.(statuses := Some(Taken(answers, 0, n)),
                   phase := if forall i :: 0 <= i < n ==> answers(i).success then Destroyed else Destroying))
            else trace == [WriteStatus(cb.(phase := Destroyed))]
  {
    if cb.statuses.Some? && |cb.statuses.value| == |cb.spec| {
      FinalizeTrace(cb, answers, served);
      var got := Taken(answers, 0, |cb.spec|);
      TakenOk(answers, |cb.spec|);
    }
  }
}
