/** The parallel executor: a closed queue of work ids, up to 64 workers, a result list behind a mutex
    and a `success` flag that one branch writes without it. One step is one shared access. */
module Executor {
  import opened BladeTypes
  import opened Identifiers

  const MAX_WORKERS: nat := 64

  /** One prepared target; `error` is a failure found while preparing it, usually empty. */
  datatype Target = Target(meta: Meta, error: string)

  /** `failCode` is the code of the tool's "exec failed" error. */
  datatype Job = Job(kind: string, destroy: bool, failCode: int, targets: seq<Target>)

  datatype Lookup = Found | NotFound(msg: string) | LookupError(msg: string)

  datatype Response = Ok(result: string) | Failed(err: string, code: int)

  /** What a worker appends. Only `status` is stored; the rest records where it came from. */
  datatype Entry = Entry(id: nat, lookup: Lookup, response: Response, status: ResStatus, ok: bool)

  // ---- One target, on its own ----

  function Fail(st: ResStatus, err: string, code: int): ResStatus {
    st.(state := "Error", error := err, success := false, code := code)
  }

  function Succeed(st: ResStatus): ResStatus { st.(state := "Success", success := true) }

  function Blank(job: Job, t: Target): ResStatus {
    ResStatus(t.meta.id, "", 0, "", false, job.kind, Print(t.meta))
  }

  /** A missing pod is noted in the status, but the command runs all the same. */
  function Looked(job: Job, t: Target, lookup: Lookup): ResStatus {
    if t.meta.podName != "" && lookup.NotFound? then Succeed(Blank(job, t)).(error := lookup.msg)
    else Blank(job, t)
  }

  /** execCommands: on create the tool's answer becomes the uid of the resource. */
  function Executed(job: Job, st: ResStatus, r: Response): ResStatus {
    match r
    case Ok(result) => Succeed(if job.destroy then st else st.(id := result))
    case Failed(err, code) => Fail(st, err, code)
  }

  predicate Skipped(t: Target, lookup: Lookup) {
    t.error != "" || (t.meta.podName != "" && lookup.LookupError?)
  }

  /** What the executor does with target `i`, given what the cluster answers. */
  function Outcome(job: Job, i: nat, lookup: Lookup, r: Response): (e: Entry)
    requires i < |job.targets|
    ensures e.id == i && e.ok == e.status.success
    ensures e.ok <==> !Skipped(job.targets[i], lookup) && r.Ok?
  {
    var t := job.targets[i];
    var st :=
      if t.error != "" then Fail(Blank(job, t), t.error, job.failCode)
      else if t.meta.podName != "" && lookup.LookupError? then Fail(Blank(job, t), lookup.msg, job.failCode)
      else Executed(job, Looked(job, t, lookup), r);
    Entry(i, lookup, r, st, !Skipped(t, lookup) && r.Ok?)
  }

  /** What is recorded for a target, field by field: a failure found while preparing it or by looking up
      its pod; the tool's failure; or its success, with the uid the tool answered on create, and with the
      message about a missing pod kept as the error text. */
  lemma OutcomeFields(job: Job, i: nat, lookup: Lookup, r: Response)
    requires i < |job.targets|
    ensures var t := job.targets[i];
            var st := Outcome(job, i, lookup, r).status;
            && st.kind == job.kind && st.identifier == Print(t.meta)
            && (t.error != "" ==>
                  st.id == t.meta.id && st.state == "Error" && !st.success && st.error == t.error && st.code == job.failCode)
            && (t.error == "" && t.meta.podName != "" && lookup.LookupError? ==>
                  st.id == t.meta.id && st.state == "Error" && !st.success && st.error == lookup.msg
                  && st.code == job.failCode)
            && (t.error == "" && !(t.meta.podName != "" && lookup.LookupError?) && r.Failed? ==>
                  st.id == t.meta.id && st.state == "Error" && !st.success && st.error == r.err && st.code == r.code)
            && (t.error == "" && !(t.meta.podName != "" && lookup.LookupError?) && r.Ok? ==>
                  && st.id == (if job.destroy then t.meta.id else r.result)
                  && st.state == "Success" && st.success && st.code == 0
                  && st.error == (if t.meta.podName != "" && lookup.NotFound? then lookup.msg else ""))
  {
  }

  // ---- The workers ----

  datatype Pc =
    | Ready                              // about to receive from the queue
    | Took(id: nat)
    | Erasing(id: nat, lookup: Lookup)   // about to store success = true, without the mutex
    | Executing(id: nat, lookup: Lookup)
    | Done(entry: Entry)                 // waiting for the mutex
    | Appending(entry: Entry)            // holding it
    | Loading(ok: bool)
    | Storing(value: bool)
    | Exited

  datatype State = State(
    next: nat,                // the queue still holds next, next + 1, ...
    pcs: seq<Pc>,
    lock: Option<nat>,
    entries: seq<Entry>,
    success: bool,
    erased: bool)             // some worker has stored success = true for a missing pod

  /** Worker w takes one step; the cluster's answers are used where the step asks for them. */
  datatype Action = Action(w: nat, lookup: Lookup, response: Response)

  function Workers(job: Job): nat { if |job.targets| < MAX_WORKERS then |job.targets| else MAX_WORKERS }

  function Start(job: Job): State {
    State(0, seq(Workers(job), i => Ready), None, [], true, false)
  }

  predicate Enabled(job: Job, s: State, a: Action) {
    a.w < |s.pcs| && !s.pcs[a.w].Exited? && (s.pcs[a.w].Done? ==> s.lock.None?)
  }

  function Move(s: State, w: nat, pc: Pc): State
    requires w < |s.pcs|
  {
    s.(pcs := s.pcs[w := pc])
  }

  function Prepared(job: Job, id: nat, lookup: Lookup, r: Response): Pc
    requires id < |job.targets|
  {
    var t := job.targets[id];
    if Skipped(t, lookup) then Done(Outcome(job, id, lookup, r))
    else if t.meta.podName != "" && lookup.NotFound? then Erasing(id, lookup)
    else Executing(id, lookup)
  }

  function Apply(job: Job, s: State, a: Action): State
    requires Enabled(job, s, a)
  {
    match s.pcs[a.w]
    case Ready =>
      if s.next < |job.targets| then Move(s, a.w, Took(s.next)).(next := s.next + 1) else Move(s, a.w, Exited)
    case Took(id) => if id < |job.targets| then Move(s, a.w, Prepared(job, id, a.lookup, a.response)) else s
    case Erasing(id, lookup) => Move(s, a.w, Executing(id, lookup)).(success := true, erased := true)
    case Executing(id, lookup) =>
      if id < |job.targets| then Move(s, a.w, Done(Outcome(job, id, lookup, a.response))) else s
    case Done(e) => Move(s, a.w, Appending(e)).(lock := Some(a.w))
    case Appending(e) => Move(s, a.w, Loading(e.ok)).(entries := s.entries + [e])
    case Loading(ok) => Move(s, a.w, Storing(s.success && ok))
    case Storing(v) => Move(s, a.w, Ready).(success := v, lock := None)
    case Exited => s
  }

  ghost predicate Legal(job: Job, s: State, acts: seq<Action>)
    decreases |acts|
  {
    acts == [] || (Enabled(job, s, acts[0]) && Legal(job, Apply(job, s, acts[0]), acts[1..]))
  }

  ghost function Run(job: Job, s: State, acts: seq<Action>): State
    requires Legal(job, s, acts)
    decreases |acts|
  {
    if acts == [] then s else Run(job, Apply(job, s, acts[0]), acts[1..])
  }

  /** Wait returns when every worker is through. */
  predicate Returned(s: State) { forall w :: 0 <= w < |s.pcs| ==> s.pcs[w].Exited? }

  // ---- Every id in exactly one place ----

  ghost predicate Holds(pc: Pc, id: nat) {
    match pc
    case Took(i) => i == id
    case Erasing(i, _) => i == id
    case Executing(i, _) => i == id
    case Done(e) => e.id == id
    case Appending(e) => e.id == id
    case _ => false
  }

  ghost function Held(pcs: seq<Pc>, id: nat): nat {
    if pcs == [] then 0 else (if Holds(pcs[0], id) then 1 else 0) + Held(pcs[1..], id)
  }

  ghost function Appended(es: seq<Entry>, id: nat): nat {
    if es == [] then 0 else (if es[0].id == id then 1 else 0) + Appended(es[1..], id)
  }

  lemma {:induction false} HeldMove(pcs: seq<Pc>, w: nat, pc: Pc, id: nat)
    requires w < |pcs|
    ensures Held(pcs[w := pc], id) + (if Holds(pcs[w], id) then 1 else 0)
            == Held(pcs, id) + (if Holds(pc, id) then 1 else 0)
    ensures Holds(pcs[w], id) ==> Held(pcs, id) > 0
  {
    var moved := pcs[w := pc];
    if w == 0 {
      assert moved[1..] == pcs[1..];
    } else {
      HeldMove(pcs[1..], w - 1, pc, id);
      assert moved[1..] == pcs[1..][w - 1 := pc] && moved[0] == pcs[0];
    }
  }

  lemma {:induction false} AppendedSnoc(es: seq<Entry>, e: Entry, id: nat)
    ensures Appended(es + [e], id) == Appended(es, id) + (if e.id == id then 1 else 0)
  {
    if es != [] {
      assert (es + [e])[1..] == es[1..] + [e];
      AppendedSnoc(es[1..], e, id);
    } else {
      assert (es + [e])[1..] == [];
    }
  }

  ghost predicate AllOk(es: seq<Entry>) { forall k :: 0 <= k < |es| ==> es[k].ok }

  ghost predicate Legit(job: Job, e: Entry) {
    e.id < |job.targets| && e == Outcome(job, e.id, e.lookup, e.response)
  }

  ghost predicate PcOk(job: Job, pc: Pc) {
    match pc
    case Erasing(id, lookup) =>
      id < |job.targets| && !Skipped(job.targets[id], lookup) && lookup.NotFound? && job.targets[id].meta.podName != ""
    case Executing(id, lookup) => id < |job.targets| && !Skipped(job.targets[id], lookup)
    case Done(e) => Legit(job, e)
    case Appending(e) => Legit(job, e)
    case _ => true
  }

  predicate Inside(pc: Pc) { pc.Appending? || pc.Loading? || pc.Storing? }

  /** The flag while nobody has erased it: the conjunction of everything appended, up to the entry
      whose append is still being folded in. */
  ghost predicate FlagExact(s: State) {
    forall w :: 0 <= w < |s.pcs| ==>
      match s.pcs[w]
      case Loading(ok) =>
        s.entries != [] && s.entries[|s.entries| - 1].ok == ok
        && (s.success <==> AllOk(s.entries[..|s.entries| - 1]))
      case Storing(v) => v <==> AllOk(s.entries)
      case Appending(_) => s.success <==> AllOk(s.entries)
      case _ => true
  }

  /** Every id handed out is with exactly one worker or in the list exactly once. */
  ghost predicate Counted(s: State) {
    forall id: nat :: Held(s.pcs, id) + Appended(s.entries, id) == if id < s.next then 1 else 0
  }

  /** Every worker and every result agrees with its target. */
  ghost predicate Faithful(job: Job, s: State) {
    && s.next <= |job.targets| && |s.pcs| == Workers(job)
    && (forall w :: 0 <= w < |s.pcs| ==> PcOk(job, s.pcs[w]))
    && (forall k :: 0 <= k < |s.entries| ==> Legit(job, s.entries[k]))
    && (forall w :: 0 <= w < |s.pcs| && s.pcs[w].Exited? ==> s.next == |job.targets|)
  }

  ghost predicate Locked(s: State) {
    && (s.lock.Some? ==> s.lock.value < |s.pcs|)
    && (forall w :: 0 <= w < |s.pcs| ==> (s.lock == Some(w) <==> Inside(s.pcs[w])))
  }

  /** A false flag always means a failure; without an erasing store it means nothing else. */
  ghost predicate Flagged(s: State) {
    && (!s.success ==> !AllOk(s.entries))
    && (forall w :: 0 <= w < |s.pcs| && (s.pcs[w] == Loading(false) || s.pcs[w] == Storing(false)) ==> !AllOk(s.entries))
    && (!s.erased ==> FlagExact(s) && (s.lock.None? ==> (s.success <==> AllOk(s.entries))))
  }

  ghost predicate Inv(job: Job, s: State) { Counted(s) && Faithful(job, s) && Locked(s) && Flagged(s) }

  lemma StepShape(job: Job, s: State, a: Action)
    requires Enabled(job, s, a)
    ensures var t := Apply(job, s, a);
            && |t.pcs| == |s.pcs| && t.pcs == s.pcs[a.w := t.pcs[a.w]]
            && s.next <= t.next && (s.next <= |job.targets| ==> t.next <= |job.targets|)
            && t.entries == s.entries + (if s.pcs[a.w].Appending? then [s.pcs[a.w].entry] else [])
            && (t.pcs[a.w].Exited? ==> s.next >= |job.targets|)
  {
  }

  /** A step moves an id from the queue to a worker, or from a worker to the list, or nowhere. */
  lemma CountKeeps(job: Job, s: State, a: Action, id: nat)
    requires Enabled(job, s, a)
    requires Held(s.pcs, id) + Appended(s.entries, id) == if id < s.next then 1 else 0
    ensures var t := Apply(job, s, a);
            Held(t.pcs, id) + Appended(t.entries, id) == if id < t.next then 1 else 0
  {
    StepShape(job, s, a);
    IdMoves(job, s, a, id);
    CountMoved(s, Apply(job, s, a), a.w, id);
  }

  lemma CountMoved(s: State, t: State, w: nat, id: nat)
    requires w < |s.pcs| == |t.pcs| && t.pcs == s.pcs[w := t.pcs[w]]
    requires t.entries == s.entries + (if s.pcs[w].Appending? then [s.pcs[w].entry] else [])
    requires if s.pcs[w].Ready? then
               s.next <= t.next <= s.next + 1 && (Holds(t.pcs[w], id) <==> t.next == s.next + 1 && id == s.next)
             else t.next == s.next && (Holds(t.pcs[w], id) <==> Holds(s.pcs[w], id) && !s.pcs[w].Appending?)
    requires Held(s.pcs, id) + Appended(s.entries, id) == if id < s.next then 1 else 0
    ensures Held(t.pcs, id) + Appended(t.entries, id) == if id < t.next then 1 else 0
  {
    HeldMove(s.pcs, w, t.pcs[w], id);
    if s.pcs[w].Appending? {
      AppendedSnoc(s.entries, s.pcs[w].entry, id);
    } else {
      assert t.entries == s.entries;
    }
  }

  lemma IdMoves(job: Job, s: State, a: Action, id: nat)
    requires Enabled(job, s, a)
    ensures var t := Apply(job, s, a);
            var pc, moved := s.pcs[a.w], t.pcs[a.w];
            if pc.Ready? then Holds(moved, id) <==> t.next == s.next + 1 && id == s.next
            else t.next == s.next
                 && (Holds(moved, id) <==> Holds(pc, id) && !pc.Appending?)
    ensures s.pcs[a.w].Ready? ==> Apply(job, s, a).next <= s.next + 1
  {
  }

  lemma CountedKeeps(job: Job, s: State, a: Action)
    requires Counted(s) && Enabled(job, s, a)
    ensures Counted(Apply(job, s, a))
  {
    forall id: nat ensures
        var t := Apply(job, s, a);
        Held(t.pcs, id) + Appended(t.entries, id) == if id < t.next then 1 else 0
    {
      CountKeeps(job, s, a, id);
    }
  }

  lemma PreparedOk(job: Job, id: nat, lookup: Lookup, r: Response)
    requires id < |job.targets|
    ensures PcOk(job, Prepared(job, id, lookup, r))
    ensures !Skipped(job.targets[id], lookup) ==> Legit(job, Outcome(job, id, lookup, r))
  {
  }

  lemma NewPcOk(job: Job, s: State, a: Action)
    requires Enabled(job, s, a) && PcOk(job, s.pcs[a.w])
    ensures PcOk(job, Apply(job, s, a).pcs[a.w])
  {
    match s.pcs[a.w] {
      case Took(id) => if id < |job.targets| { PreparedOk(job, id, a.lookup, a.response); }
      case Executing(id, lookup) => PreparedOk(job, id, lookup, a.response);
      case _ =>
    }
  }

  lemma FaithfulKeeps(job: Job, s: State, a: Action)
    requires Faithful(job, s) && Enabled(job, s, a)
    ensures Faithful(job, Apply(job, s, a))
  {
    NewPcOk(job, s, a);
    StepShape(job, s, a);
  }

  lemma LockedKeeps(job: Job, s: State, a: Action)
    requires Locked(s) && Enabled(job, s, a)
    ensures Locked(Apply(job, s, a))
  {
  }

  lemma Snoc(es: seq<Entry>, e: Entry)
    ensures AllOk(es + [e]) <==> AllOk(es) && e.ok
    ensures (es + [e])[..|es|] == es
  {
    var all := es + [e];
    assert forall k :: 0 <= k < |es| ==> all[k] == es[k];
    assert all[|es|] == e;
  }

  lemma AllOkLast(es: seq<Entry>)
    requires es != []
    ensures AllOk(es) <==> AllOk(es[..|es| - 1]) && es[|es| - 1].ok
  {
    Snoc(es[..|es| - 1], es[|es| - 1]);
    assert es[..|es| - 1] + [es[|es| - 1]] == es;
  }

  /** Inside the mutex: append, load, store. */
  lemma FlaggedInside(job: Job, s: State, a: Action)
    requires Locked(s) && Flagged(s) && Enabled(job, s, a) && Inside(s.pcs[a.w])
    ensures Flagged(Apply(job, s, a))
  {
    match s.pcs[a.w]
    case Appending(e) => Snoc(s.entries, e);
    case Loading(ok) => if s.entries != [] { AllOkLast(s.entries); }
    case Storing(v) =>
  }

  lemma FlaggedKeeps(job: Job, s: State, a: Action)
    requires Locked(s) && Flagged(s) && Enabled(job, s, a)
    ensures Flagged(Apply(job, s, a))
  {
    if Inside(s.pcs[a.w]) {
      FlaggedInside(job, s, a);
    }
  }

  lemma StepKeeps(job: Job, s: State, a: Action)
    requires Inv(job, s) && Enabled(job, s, a)
    ensures Inv(job, Apply(job, s, a))
  {
    CountedKeeps(job, s, a);
    FaithfulKeeps(job, s, a);
    LockedKeeps(job, s, a);
    FlaggedKeeps(job, s, a);
  }

  lemma {:induction false} RunKeeps(job: Job, s: State, acts: seq<Action>)
    requires Inv(job, s) && Legal(job, s, acts)
    ensures Inv(job, Run(job, s, acts))
    decreases |acts|
  {
    if acts != [] {
      StepKeeps(job, s, acts[0]);
      RunKeeps(job, Apply(job, s, acts[0]), acts[1..]);
    }
  }

  lemma {:induction false} NothingHeld(pcs: seq<Pc>, id: nat)
    requires forall w :: 0 <= w < |pcs| ==> !Holds(pcs[w], id)
    ensures Held(pcs, id) == 0
  {
    if pcs != [] {
      NothingHeld(pcs[1..], id);
    }
  }

  lemma StartInv(job: Job)
    ensures Inv(job, Start(job))
  {
    forall id: nat ensures Held(Start(job).pcs, id) == 0 {
      NothingHeld(Start(job).pcs, id);
    }
  }

  lemma Reach(job: Job, acts: seq<Action>)
    requires Legal(job, Start(job), acts)
    ensures Inv(job, Run(job, Start(job), acts))
  {
    StartInv(job);
    RunKeeps(job, Start(job), acts);
  }

  // ---- Arranging results by id ----

  lemma {:induction false} FindId(es: seq<Entry>, id: nat) returns (k: nat)
    requires Appended(es, id) > 0
    ensures k < |es| && es[k].id == id
  {
    if es[0].id == id {
      return 0;
    }
    var j := FindId(es[1..], id);
    k := j + 1;
  }

  lemma {:induction false} AppendedRemove(es: seq<Entry>, k: nat, id: nat)
    requires k < |es|
    ensures Appended(es[..k] + es[k + 1..], id) + (if es[k].id == id then 1 else 0) == Appended(es, id)
    decreases k
  {
    var rest := es[..k] + es[k + 1..];
    if k == 0 {
      assert rest == es[1..];
    } else {
      AppendedRemove(es[1..], k - 1, id);
      assert rest[0] == es[0] && rest[1..] == es[1..][..k - 1] + es[1..][k..];
    }
  }

  lemma {:induction false} NoneAppended(es: seq<Entry>)
    requires forall id: nat :: Appended(es, id) == 0
    ensures es == []
  {
    if es != [] {
      assert Appended(es, es[0].id) > 0;
    }
  }

  lemma LastBack(es: seq<Entry>, k: nat, front: seq<Entry>)
    requires k < |es| && multiset(front) == multiset(es[..k] + es[k + 1..])
    ensures multiset(front + [es[k]]) == multiset(es)
  {
    assert es == es[..k] + [es[k]] + es[k + 1..];
    assert multiset(es[..k] + es[k + 1..]) == multiset(es[..k]) + multiset(es[k + 1..]);
  }

  /** A list with every id below n exactly once is a permutation of one in id order. */
  lemma {:induction false} Arrange(es: seq<Entry>, n: nat) returns (outs: seq<Entry>)
    requires forall id: nat :: Appended(es, id) == if id < n then 1 else 0
    ensures |outs| == n && multiset(outs) == multiset(es)
    ensures forall i :: 0 <= i < n ==> outs[i].id == i && outs[i] in es
    decreases n
  {
    if n == 0 {
      NoneAppended(es);
      return [];
    }
    var k := FindId(es, n - 1);
    var rest := es[..k] + es[k + 1..];
    forall id: nat ensures Appended(rest, id) == if id < n - 1 then 1 else 0 {
      AppendedRemove(es, k, id);
    }
    var front := Arrange(rest, n - 1);
    outs := front + [es[k]];
    LastBack(es, k, front);
    forall i | 0 <= i < n - 1 ensures front[i] in es {
      assert front[i] in rest;
    }
  }

  // ---- The results ----

  /** In every interleaving, when Wait returns every target was executed exactly once, and the list is
      a permutation of the outcomes of the targets, each as if executed on its own. */
  lemma ResultsArePermutation(job: Job, acts: seq<Action>) returns (outs: seq<Entry>)
    requires Legal(job, Start(job), acts) && Returned(Run(job, Start(job), acts))
    ensures var s := Run(job, Start(job), acts);
            && |outs| == |job.targets| && multiset(outs) == multiset(s.entries)
            && forall i :: 0 <= i < |outs| ==> outs[i] == Outcome(job, i, outs[i].lookup, outs[i].response)
  {
    Reach(job, acts);
    var s := Run(job, Start(job), acts);
    var n := |job.targets|;
    assert s.next == n by {
      if n > 0 {
        assert s.pcs[0].Exited?;
      }
    }
    forall id: nat ensures Appended(s.entries, id) == if id < n then 1 else 0 {
      NothingHeld(s.pcs, id);
      assert Held(s.pcs, id) + Appended(s.entries, id) == if id < s.next then 1 else 0;
    }
    outs := Arrange(s.entries, n);
    forall i | 0 <= i < n ensures Legit(job, outs[i]) {
      assert outs[i] in s.entries;
    }
  }

  /** At any time: at most min(64, n) targets in work, none of them twice, none that is already done. */
  lemma BoundedWork(job: Job, acts: seq<Action>, id: nat)
    requires Legal(job, Start(job), acts)
    ensures var s := Run(job, Start(job), acts);
            && |s.pcs| == (if |job.targets| < 64 then |job.targets| else 64)
            && Held(s.pcs, id) + Appended(s.entries, id) <= 1
  {
    Reach(job, acts);
    assert Held(Run(job, Start(job), acts).pcs, id) + Appended(Run(job, Start(job), acts).entries, id) <= 1;
  }

  /** The shared flag when Wait returns. False always means that some target failed; unless some pod
      was missing, true means that none did. The message about missing resources is never reached. */
  lemma SuccessFlag(job: Job, acts: seq<Action>)
    requires Legal(job, Start(job), acts) && Returned(Run(job, Start(job), acts))
    ensures var s := Run(job, Start(job), acts);
            && (!s.success ==> !AllOk(s.entries) && s.entries != [])
            && (!s.erased ==> (s.success <==> AllOk(s.entries)))
  {
    Reach(job, acts);
    var s := Run(job, Start(job), acts);
  }

  // ---- Progress ----

  ghost function Weight(pc: Pc): nat {
    match pc
    case Exited => 0
    case Ready => 1
    case Storing(_) => 2
    case Loading(_) => 3
    case Appending(_) => 4
    case Done(_) => 5
    case Executing(_, _) => 6
    case Erasing(_, _) => 7
    case Took(_) => 8
  }

  ghost function Weights(pcs: seq<Pc>): nat {
    if pcs == [] then 0 else Weight(pcs[0]) + Weights(pcs[1..])
  }

  ghost function StepsLeft(job: Job, s: State): nat
    requires s.next <= |job.targets|
  {
    8 * (|job.targets| - s.next) + Weights(s.pcs)
  }

  lemma {:induction false} WeightsMove(pcs: seq<Pc>, w: nat, pc: Pc)
    requires w < |pcs|
    ensures Weights(pcs[w := pc]) + Weight(pcs[w]) == Weights(pcs) + Weight(pc)
  {
    var moved := pcs[w := pc];
    if w == 0 {
      assert moved[1..] == pcs[1..];
    } else {
      WeightsMove(pcs[1..], w - 1, pc);
      assert moved[1..] == pcs[1..][w - 1 := pc] && moved[0] == pcs[0];
    }
  }

  lemma LighterWorker(job: Job, s: State, a: Action)
    requires Enabled(job, s, a) && s.next <= |job.targets|
    requires (s.pcs[a.w].Took? || s.pcs[a.w].Executing?) ==> s.pcs[a.w].id < |job.targets|
    ensures var t := Apply(job, s, a);
            t.next <= |job.targets| && Weight(t.pcs[a.w]) + 8 * s.next < Weight(s.pcs[a.w]) + 8 * t.next
  {
  }

  lemma StepLess(job: Job, s: State, a: Action)
    requires Inv(job, s) && Enabled(job, s, a)
    ensures Apply(job, s, a).next <= |job.targets|
    ensures StepsLeft(job, Apply(job, s, a)) < StepsLeft(job, s)
  {
    var pc := s.pcs[a.w];
    if pc.Took? {
      HeldMove(s.pcs, a.w, Ready, pc.id);
      assert Held(s.pcs, pc.id) + Appended(s.entries, pc.id) <= 1;
    }
    StepShape(job, s, a);
    WeightsMove(s.pcs, a.w, Apply(job, s, a).pcs[a.w]);
    LighterWorker(job, s, a);
  }

  lemma {:induction false} RunShort(job: Job, s: State, acts: seq<Action>)
    requires Inv(job, s) && Legal(job, s, acts)
    ensures |acts| <= StepsLeft(job, s)
    decreases |acts|
  {
    if acts != [] {
      StepLess(job, s, acts[0]);
      StepKeeps(job, s, acts[0]);
      RunShort(job, Apply(job, s, acts[0]), acts[1..]);
    }
  }

  lemma {:induction false} AllReady(pcs: seq<Pc>)
    requires forall w :: 0 <= w < |pcs| ==> pcs[w] == Ready
    ensures Weights(pcs) == |pcs|
  {
    if pcs != [] {
      AllReady(pcs[1..]);
    }
  }

  /** No deadlock and no endless run: until Wait returns some worker can move, and no run takes more
      than eight steps a target and one a worker. */
  lemma AlwaysReturns(job: Job, acts: seq<Action>)
    requires Legal(job, Start(job), acts)
    ensures |acts| <= 8 * |job.targets| + Workers(job)
    ensures !Returned(Run(job, Start(job), acts)) ==> exists a :: Enabled(job, Run(job, Start(job), acts), a)
  {
    StartInv(job);
    RunShort(job, Start(job), acts);
    AllReady(Start(job).pcs);
    Reach(job, acts);
    var s := Run(job, Start(job), acts);
    if !Returned(s) {
      var w :| 0 <= w < |s.pcs| && !s.pcs[w].Exited?;
      assert Enabled(job, s, Action(if s.lock.Some? then s.lock.value else w, Found, Ok("")));
    }
  }
}
