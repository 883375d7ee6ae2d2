/** What is recorded, what is destroyed with it, and what is created without ever being recorded. */
module RecordTheorems {
  import opened BladeTypes
  import opened Reconcile
  import opened Passes
  import opened Lifecycle
  import opened LifecycleTheorems
  import opened Records

  /** In every run: a version that is Running, Error, Updating or Destroying records exactly one status for
      every experiment of the spec that the last create pass read; a Running or Error version has been so
      ever since; a Destroying one records a failure. */
  lemma StatusesMatchOrigin(s0: State, acts: seq<Action>, i: nat) returns (j: nat)
    requires Init(s0) && Legal(s0, acts)
    requires i < |Run(s0, acts).history| && InUse(Run(s0, acts).history[i].phase)
    ensures var h := Run(s0, acts).history;
            && MadeFrom(h, i, j)
            && (Live(h[i].phase) ==> forall k :: j < k <= i ==> Live(h[k].phase))
            && (h[i].phase == Destroying ==> SomeFailed(h[i]))
  {
    Reachable(s0, acts);
    var h := Run(s0, acts).history;
    assert RecordedAt(h, i);
    j :| MadeFrom(h, i, j);
  }

  // ---- Finalizing ----

  /** A call on this copy destroys every status with the entry of the same index in `spec`, in order, and
      writes Destroyed iff all of that succeeded. */
  ghost predicate DestroysWith(cb: Blade, spec: seq<ExpSpec>, answers: nat -> ExpStatus, served: Option<Blade>) {
    var trace := Trace(Start(cb), answers, 0, served);
    var n := |spec|;
    && cb.statuses.Some? && |cb.statuses.value| == n && |trace| == n + 1
    && (forall k :: 0 <= k < n ==> trace[k] == CallDestroy(spec[k], cb.statuses.value[k]))
    && trace[n].WriteStatus?
    && trace[n].obj.phase == (if forall k :: 0 <= k < n ==> answers(k).success then Destroyed else Destroying)
  }

  lemma DestroysOwn(cb: Blade, answers: nat -> ExpStatus, served: Option<Blade>)
    requires cb.spec != [] && cb.phase != Destroyed && (cb.phase == Destroying || Deleting(cb))
    ensures DestroysWith(cb, cb.spec, answers, served) <==> cb.statuses.Some? && |cb.statuses.value| == |cb.spec|
  {
    FinalizeSound(cb, answers, served);
  }

  lemma DestroysForeign(cb: Blade, origin: seq<ExpSpec>, answers: nat -> ExpStatus, served: Option<Blade>)
    requires cb.spec != [] && cb.phase != Destroyed && (cb.phase == Destroying || Deleting(cb))
    requires origin != [] && cb.statuses.Some? && |cb.statuses.value| == |origin|
    ensures DestroysWith(cb, origin, answers, served) <==> cb.spec == origin
  {
    FinalizeSound(cb, answers, served);
    DestroysOwn(cb, answers, served);
    if DestroysWith(cb, origin, answers, served) {
      assert |cb.spec| == |origin|;
      forall k | 0 <= k < |origin| ensures cb.spec[k] == origin[k] {
        assert Trace(Start(cb), answers, 0, served)[k] == CallDestroy(origin[k], cb.statuses.value[k]);
      }
    }
  }

  /** In every run, finalizing a version whose statuses were created from version j destroys every recorded
      experiment exactly if the spec is as long as it was then, and destroys each with the entry that
      created it exactly if the spec is the same. */
  lemma FinalizeExact(s0: State, acts: seq<Action>, i: nat, note: Note, answers: nat -> ExpStatus,
                      served: Option<Blade>) returns (j: nat)
    requires Init(s0) && Legal(s0, acts)
    requires i < |Run(s0, acts).history| && InUse(Run(s0, acts).history[i].phase)
    requires var b := Run(s0, acts).history[i]; b.spec != [] && (b.phase == Destroying || Deleting(b))
    ensures var h := Run(s0, acts).history;
            var cb := h[i].(preSpec := note);
            && MadeFrom(h, i, j)
            && (DestroysWith(cb, cb.spec, answers, served) <==> |cb.spec| == |h[j].spec|)
            && (DestroysWith(cb, h[j].spec, answers, served) <==> cb.spec == h[j].spec)
  {
    j := StatusesMatchOrigin(s0, acts, i);
    var h := Run(s0, acts).history;
    DestroysOwn(h[i].(preSpec := note), answers, served);
    DestroysForeign(h[i].(preSpec := note), h[j].spec, answers, served);
  }

  lemma OthersDestroyed(s: State, a: Action)
    requires Enabled(s, a) && !a.Serve? && Latest(s).phase != Destroyed
    requires Apply(s, a).history != [] && Latest(Apply(s, a)).phase == Destroyed
    ensures a.TimerWrite? && Latest(Apply(s, a)) == Latest(s).(phase := Destroyed, version := |s.history|)
  {
  }

  lemma ServeDestroyed(s: State, ok: bool, log: seq<Event>)
    requires Inv(s) && Tallied(s.history, s.worker, log) && Enabled(s, Serve(ok)) && Latest(s).phase != Destroyed
    requires Apply(s, Serve(ok)).history != [] && Latest(Apply(s, Serve(ok))).phase == Destroyed
    ensures var d := Latest(Apply(s, Serve(ok)));
            d == Latest(s).(phase := Destroyed, statuses := d.statuses, version := d.version)
            && Accounted(Latest(s), d.statuses, log)
  {
    assert s.worker.cb.version + 1 == |s.history|;
    assert s.worker.PutStatus? && WriteTallied(Latest(s), s.worker.cb, log);
  }

  /** In every run, the step that stores Destroyed is either a timeout goroutine's, which changes the phase
      alone, or ends a finalize pass whose executor calls account for it. */
  lemma DestroyedAccounted(s0: State, acts: seq<Action>, a: Action)
    requires Init(s0) && Legal(s0, acts) && Enabled(Run(s0, acts), a)
    requires Latest(Run(s0, acts)).phase != Destroyed
    requires var t := Apply(Run(s0, acts), a); t.history != [] && Latest(t).phase == Destroyed
    ensures var s := Run(s0, acts);
            var b, d := Latest(s), Latest(Apply(s, a));
            && d == b.(phase := Destroyed, statuses := d.statuses, version := d.version)
            && if a.TimerWrite? then d.statuses == b.statuses
               else a.Serve? && Accounted(b, d.statuses, Log(s0, acts, []))
  {
    Reachable(s0, acts);
    if a.Serve? {
      ServeDestroyed(Run(s0, acts), a.ok, Log(s0, acts, []));
    } else {
      OthersDestroyed(Run(s0, acts), a);
    }
  }

  // ---- Created, not recorded ----

  lemma AcceptedRecords(s: State, ok: bool)
    requires s.history != [] && s.worker.PutStatus? && s.worker.cb.phase != Latest(s).phase
    requires Accepted(s, ok, s.worker.cb.version) && !(Deleting(Latest(s)) && Latest(s).finalizers == [])
    ensures var t := Apply(s, Serve(ok));
            t.history == s.history + [Latest(t)] && Latest(t).statuses == s.worker.cb.statuses
            && Latest(t).phase == s.worker.cb.phase
  {
  }

  lemma RecordedAtServe(s: State, ok: bool, log: seq<Event>)
    requires GoodHistory(s.history) && Tallied(s.history, s.worker, log) && Enabled(s, Serve(ok))
    requires s.worker.PutStatus? && Live(s.worker.cb.phase)
    ensures var t := Apply(s, Serve(ok));
            var base := s.history[s.worker.cb.version];
            && t.worker == Idle && CreatesOf(log, base.spec, |base.spec|)
            && if Accepted(s, ok, s.worker.cb.version) then
                 t.history == s.history + [Latest(t)] && Latest(t).statuses == s.worker.cb.statuses
                 && Latest(t).phase == s.worker.cb.phase
               else t.history == s.history
  {
    assert WriteTallied(s.history[s.worker.cb.version], s.worker.cb, log);
    if Accepted(s, ok, s.worker.cb.version) {
      assert Sound(Latest(s));
      AcceptedRecords(s, ok);
    }
  }

  /** In every run: a finished create pass has called Create once for every experiment of the version it
      read. What it created is stored in a new version if and only if its status write is accepted;
      otherwise the history stays as it is and the call is over. */
  lemma RecordedIffAccepted(s0: State, acts: seq<Action>, ok: bool)
    requires Init(s0) && Legal(s0, acts) && Enabled(Run(s0, acts), Serve(ok))
    requires var w := Run(s0, acts).worker; w.PutStatus? && Live(w.cb.phase)
    ensures var s := Run(s0, acts);
            var t := Apply(s, Serve(ok));
            && s.worker.cb.version < |s.history| && t.worker == Idle
            && CreatesOf(Log(s0, acts, []), s.history[s.worker.cb.version].spec, |s.history[s.worker.cb.version].spec|)
            && if Accepted(s, ok, s.worker.cb.version) then
                 t.history == s.history + [Latest(t)] && Latest(t).statuses == s.worker.cb.statuses
                 && Latest(t).phase == s.worker.cb.phase
               else t.history == s.history
  {
    Reachable(s0, acts);
    RecordedAtServe(Run(s0, acts), ok, Log(s0, acts, []));
  }

  ghost function CallsOf(s: State, a: Action): seq<Event>
    requires Enabled(s, a)
  {
    if a.Answer? then [PendingCall(s.worker)] else []
  }

  /** All executor calls of a run. */
  ghost function AllCalls(s: State, acts: seq<Action>): seq<Event>
    requires Legal(s, acts)
    decreases |acts|
  {
    if acts == [] then [] else CallsOf(s, acts[0]) + AllCalls(Apply(s, acts[0]), acts[1..])
  }

  /** These steps lead from s to t with these executor calls. */
  ghost predicate Leads(s: State, acts: seq<Action>, t: State, calls: seq<Event>) {
    Legal(s, acts) && Run(s, acts) == t && AllCalls(s, acts) == calls
  }

  lemma CallsFirst(s: State, acts: seq<Action>)
    requires acts != [] && Legal(s, acts)
    ensures AllCalls(s, acts) == CallsOf(s, acts[0]) + AllCalls(Apply(s, acts[0]), acts[1..])
  {
  }

  lemma Joined(x: seq<Event>, y: seq<Event>, z: seq<Event>)
    ensures x + (y + z) == (x + y) + z
  {
  }

  lemma {:induction false} CallsAppend(s: State, a: seq<Action>, b: seq<Action>)
    requires Legal(s, a) && Legal(s, a + b) && Legal(Run(s, a), b)
    ensures AllCalls(s, a + b) == AllCalls(s, a) + AllCalls(Run(s, a), b)
    decreases |a|
  {
    if a == [] {
      assert a + b == b && [] + AllCalls(s, b) == AllCalls(s, b);
    } else {
      var s1, rest := Apply(s, a[0]), a[1..];
      assert (a + b)[0] == a[0] && (a + b)[1..] == rest + b;
      CallsAppend(s1, rest, b);
      CallsFirst(s, a);
      CallsFirst(s, a + b);
      Joined(CallsOf(s, a[0]), AllCalls(s1, rest), AllCalls(Run(s, a), b));
    }
  }

  lemma Then(s: State, a: seq<Action>, t: State, c: seq<Event>, b: seq<Action>, u: State, d: seq<Event>)
    requires Leads(s, a, t, c) && Leads(t, b, u, d)
    ensures Leads(s, a + b, u, c + d)
  {
    Append(s, a, b);
    CallsAppend(s, a, b);
  }

  lemma Then3(s: State, a1: seq<Action>, s1: State, c1: seq<Event>, a2: seq<Action>, s2: State, c2: seq<Event>,
              a3: seq<Action>, s3: State, c3: seq<Event>)
    requires Leads(s, a1, s1, c1) && Leads(s1, a2, s2, c2) && Leads(s2, a3, s3, c3)
    ensures Leads(s, a1 + a2 + a3, s3, c1 + c2 + c3)
  {
    Then(s, a1, s1, c1, a2, s2, c2);
    Then(s, a1 + a2, s2, c1 + c2, a3, s3, c3);
  }

  lemma One(s: State, a: Action)
    requires Enabled(s, a)
    ensures Leads(s, [a], Apply(s, a), if a.Answer? then [PendingCall(s.worker)] else [])
  {
    assert [a][1..] == [];
    assert Legal(Apply(s, a), []);
  }

  ghost function CreateEvents(spec: seq<ExpSpec>, from: nat): seq<Event>
    requires from <= |spec|
  {
    seq(|spec| - from, k requires 0 <= k < |spec| - from => CallCreate(spec[from + k]))
  }

  lemma CreateEventsFrom(spec: seq<ExpSpec>, from: nat)
    requires from < |spec|
    ensures [CallCreate(spec[from])] + CreateEvents(spec, from + 1) == CreateEvents(spec, from)
  {
  }

  lemma AnswerOne(s: State, cb: Blade, made: seq<ExpStatus>, status: ExpStatus)
    requires s.history != [] && s.worker == CreateFrom(cb, made) && |made| < |cb.spec|
    ensures Leads(s, [Answer(status, false)], s.(worker := CreateFrom(cb, made + [status])), [CallCreate(cb.spec[|made|])])
  {
    One(s, Answer(status, false));
  }

  /** The rest of a create pass that nobody interrupts. */
  lemma {:induction false} CreateOn(s: State, cb: Blade, made: seq<ExpStatus>, rest: seq<ExpStatus>) returns (acts: seq<Action>)
    requires s.history != [] && s.worker == CreateFrom(cb, made) && |made| + |rest| == |cb.spec|
    ensures Leads(s, acts, s.(worker := CreateFrom(cb, made + rest)), CreateEvents(cb.spec, |made|))
    decreases |rest|
  {
    if rest == [] {
      acts := [];
      assert made + rest == made;
      assert CreateEvents(cb.spec, |made|) == [];
    } else {
      var first := [Answer(rest[0], false)];
      var s1 := s.(worker := CreateFrom(cb, made + [rest[0]]));
      AnswerOne(s, cb, made, rest[0]);
      var more := CreateOn(s1, cb, made + [rest[0]], rest[1..]);
      assert made + [rest[0]] + rest[1..] == made + rest;
      CreateEventsFrom(cb.spec, |made|);
      Then(s, first, s1, [CallCreate(cb.spec[|made|])], more, s.(worker := CreateFrom(cb, made + rest)),
           CreateEvents(cb.spec, |made| + 1));
      acts := first + more;
    }
  }

  /** An object that a fresh call would create, held by the finalizer, and whose statuses do not match its
      spec. */
  ghost predicate Leaky(s: State) {
    && CanBegin(s)
    && var b := Latest(s);
       && b.version + 1 == |s.history| && FINALIZER in b.finalizers
       && Creatable(b.phase) && b.spec != [] && !Deleting(b)
       && !(b.statuses.Some? && |b.statuses.value| == |b.spec|)
  }

  lemma BeginCreating(s: State, note: Note)
    requires Leaky(s)
    ensures Leads(s, [Begin(|s.history| - 1, note)],
                  s.(worker := CreateFrom(Latest(s).(preSpec := note), []), current := true), [])
  {
    One(s, Begin(|s.history| - 1, note));
  }

  lemma DeleteHeld(s: State)
    requires s.history != [] && !s.gone && FINALIZER in Latest(s).finalizers && !Deleting(Latest(s))
    ensures Leads(s, [UserDelete],
                  s.(history := s.history + [Latest(s).(deletion := Some(s.now), version := |s.history|)]), [])
  {
    One(s, UserDelete);
  }

  /** A create call starts, and the user deletes the object. */
  lemma DeleteMeanwhile(s: State, note: Note) returns (t: State)
    requires Leaky(s)
    ensures t == s.(worker := CreateFrom(Latest(s).(preSpec := note), []), current := true,
                    history := s.history + [Latest(s).(deletion := Some(s.now), version := |s.history|)])
    ensures Leads(s, [Begin(|s.history| - 1, note)] + [UserDelete], t, [])
  {
    var s1 := s.(worker := CreateFrom(Latest(s).(preSpec := note), []), current := true);
    BeginCreating(s, note);
    DeleteHeld(s1);
    t := Run(s1, [UserDelete]);
    Then(s, [Begin(|s.history| - 1, note)], s1, [], [UserDelete], t, []);
  }

  /** The pass that was overtaken ends: its write is refused. */
  lemma WriteRefused(s: State, cb: Blade, made: seq<ExpStatus>)
    requires s.history != [] && |made| == |cb.spec| && cb.version + 1 < |s.history|
    ensures Leads(s.(worker := CreateFrom(cb, made)), [Serve(true)], s.(worker := Idle), [])
  {
    One(s.(worker := CreateFrom(cb, made)), Serve(true));
  }

  /** The whole create call, with the object deleted meanwhile. */
  lemma Overtaken(s: State, note: Note, made: seq<ExpStatus>) returns (acts: seq<Action>, t: State)
    requires Leaky(s) && |made| == |Latest(s).spec|
    ensures Leads(s, acts, t, CreateEvents(Latest(s).spec, 0))
    ensures !t.gone && t.worker == Idle && |t.history| == |s.history| + 1
    ensures Latest(t) == Latest(s).(deletion := Some(s.now), version := |s.history|)
  {
    var cb := Latest(s).(preSpec := note);
    var calls := CreateEvents(cb.spec, 0);
    var s1 := DeleteMeanwhile(s, note);
    var create := CreateOn(s1, cb, [], made);
    assert [] + made == made;
    WriteRefused(s1, cb, made);
    t := s1.(worker := Idle);
    var first := [Begin(|s.history| - 1, note)] + [UserDelete];
    Then3(s, first, s1, [], create, s1.(worker := CreateFrom(cb, made)), calls, [Serve(true)], t, []);
    assert [] + calls + [] == calls;
    acts := first + create + [Serve(true)];
  }

  lemma RoundCalls(s: State, v: nat)
    requires Legal(s, Round(v))
    ensures AllCalls(s, Round(v)) == []
  {
    assert Round(v)[1..] == [Serve(true)] && [Serve(true)][1..] == [];
  }

  lemma StartUnequal(cb: Blade)
    requires Deleting(cb) && cb.spec != [] && cb.phase != Destroyed
    requires !(cb.statuses.Some? && |cb.statuses.value| == |cb.spec|)
    ensures Start(cb) == PutStatus(cb.(phase := Destroyed))
  {
  }

  lemma CommitDestroyed(s: State)
    requires s.history != [] && Latest(s).finalizers != [] && Latest(s).phase != Destroyed
    ensures Commit(s, Latest(s).(phase := Destroyed))
         == s.(history := s.history + [Latest(s).(phase := Destroyed, version := |s.history|)])
  {
  }

  /** The call on the deleting version destroys nothing and writes Destroyed. */
  lemma DestroyedUnseen(s: State) returns (t: State)
    requires s.history != [] && !s.gone && s.worker == Idle && Latest(s).version + 1 == |s.history|
    requires Deleting(Latest(s)) && Latest(s).finalizers != [] && Latest(s).spec != [] && Latest(s).phase != Destroyed
    requires !(Latest(s).statuses.Some? && |Latest(s).statuses.value| == |Latest(s).spec|)
    ensures Leads(s, Round(|s.history| - 1), t, [])
    ensures !t.gone && t.history == s.history + [Latest(s).(phase := Destroyed, version := |s.history|)]
  {
    StartUnequal(Latest(s).(preSpec := Absent));
    OneRound(s, Start(Latest(s).(preSpec := Absent)), Latest(s).(phase := Destroyed));
    CommitDestroyed(s);
    t := Run(s, Round(|s.history| - 1));
    RoundCalls(s, |s.history| - 1);
  }

  /** Deleting the object during its create pass leaks the experiments: every Create is called, whatever
      it answers, the status write is refused, and the next call writes Destroyed without a destroy. */
  lemma CreatedNeverDestroyed(s: State, note: Note, made: seq<ExpStatus>) returns (acts: seq<Action>, t: State)
    requires Leaky(s) && |made| == |Latest(s).spec|
    ensures Leads(s, acts, t, CreateEvents(Latest(s).spec, 0))
    ensures !t.gone && t.history != [] && Latest(t).phase == Destroyed && Latest(t).statuses == Latest(s).statuses
  {
    var calls := CreateEvents(Latest(s).spec, 0);
    var first, s1 := Overtaken(s, note, made);
    t := DestroyedUnseen(s1);
    var last := Round(|s1.history| - 1);
    Then(s, first, s1, calls, last, t, []);
    assert calls + [] == calls;
    acts := first + last;
  }

  /** Such an object is an ordinary one: in every run, any Initialized object with experiments that is not
      being deleted, while no call is in progress. */
  lemma InitializedIsLeaky(s0: State, acts: seq<Action>)
    requires Init(s0) && Legal(s0, acts) && CanBegin(Run(s0, acts))
    requires var b := Latest(Run(s0, acts)); b.phase == Initialized && b.spec != [] && !Deleting(b)
    ensures Leaky(Run(s0, acts))
  {
    Reachable(s0, acts);
    var h := Run(s0, acts).history;
    assert RecordedAt(h, |h| - 1) && Sound(h[|h| - 1]);
  }
}
