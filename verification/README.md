# chaosblade-operator: the life of a ChaosBlade, its executor and its target selection

The operator watches `ChaosBlade` objects. It adds a finalizer, creates the experiments of the spec,
records one status per experiment, destroys them again when the object is deleted or its spec changes,
and finally takes the finalizer away. Timeout goroutines and a periodic cleaner write to the same
object. This project models that behaviour in Dafny and proves what it keeps.

`dafny verify dfyconfig.toml` checks everything.

## Reading order

| files | about |
|---|---|
| `BladeTypes`, `Finalizers`, `Reconcile`, `Passes` | one `Reconcile` call: the controller as a class, tied to a step function; the closed form of its three loops; the in-place finalizer removal |
| `Lifecycle`, `LifecycleTheorems`, `Records`, `RecordTheorems` | the stored object under every interleaving of reconciler, timeout goroutines, cleaner, user and API server, with stale reads and failing writes |
| `Watch`, `Settling` | the event filter, the `preSpec` annotation and the work queue, when writes succeed and reads are current: no lost wakeup, update pairing, how many calls it takes |
| `Texts`, `Identifiers` | Go's string functions; identifiers printed on create and parsed on destroy |
| `Executor`, `Erasure`, `Gathering`, `Conservation`, `Dispatch`, `Retry` | the parallel executor as interleaved steps, when its success flag is right, and what its results become in later destroys |
| `Counting`, `Shuffle`, `Flattening`, `Keeping`, `Pods`, `Selection`, `SelectionTheorems` | how many and which pods |
| `Labels` | label requirements and the pod query |
| `Containers`, `ContainerTheorems`, `PodContainers` | which containers of the pods |
| `FaultCache`, `DaemonCache` | two small tables that requests and the cluster change at any time |

Code that works by changing things step by step is a class or a method with loops, proved equal to a
function of its input or old state; theorems are about those functions. Concurrent code is a state
machine whose steps are single shared accesses; a theorem about it quantifies over every legal sequence
of steps. A run-time panic (index or slice out of range) is an outcome of its own, never excluded by a
precondition.

## Assumptions

- `Update` and `Status().Update` are checked against the resource version and may fail for any reason.
  `Update` stores spec, annotations and finalizers, `Status().Update` the status. A write that changes
  nothing is dropped. An object with a deletion timestamp and no finalizers leaves the store.
- The cleaner's patch is a JSON merge patch (section 2 of RFC 7396): it is unconditional and replaces
  the whole finalizer list.
- `Get` and `List` may go through a cache and return any version ever stored. `Watch` and `Settling`
  alone assume current reads and successful writes, and say so.
- One name is reconciled by one worker at a time, has a single incarnation, and the user edits neither
  finalizers nor status. A new object has no status and carries the finalizer at most once.
- A panic ends the `Reconcile` call it happens in. controller-runtime v0.19.4 (go.mod:31), whose
  `RecoverPanic` nothing here sets, recovers it into an error and queues the request again.
- `preSpec` written by the event filter parses back to the spec it was made from.
- What the executor, the cluster, the random generator, the clock and the label library answer are
  parameters; every theorem holds for all answers.
- Pod names are not empty, at most one pod of a namespace has a name, and a pod listing is exactly the set of
  matching pods, in any order.

## Where the code does not do what its comments or names say

- The write of Running or Error is not an accepted event (pkg/controller/chaosblade/predicate.go:89-93).
  A fresh object passes three `Reconcile` calls, woken by its creation, the finalizer and Initialized
  (`FreshSettles`).
- "skip to execute command in it" (exec/model/executor_nsexec.go:90) does not skip: the command runs,
  and the store of `success` beside it can erase an earlier failure (`FailureErased`).
- The nested loops of `validateAndSetNecessaryFields` assign to copies (`ValidateAndSet`).
- Editing a spec to another length and deleting the object before the update pass ends in Destroyed
  without one destroy call (`EditThenDelete`); editing it to another one of the same length destroys with
  foreign entries (`EditThenDeleteForeign`). An empty spec freezes the object (`EmptySpecStuck`).
- An update pass without an old spec in the annotation does nothing, and nobody wakes the controller again
  (`WakeupLostExactly`). With too short an old spec, which two quick edits are enough for
  (`TwoEditsPanic`), it panics and is retried until the user acts (`PanicRepeats`).
- After a restart of the operator only Initial objects are picked up again; any other that was not at rest is
  stranded (`RestartStrands`).
- Experiments created while the user deletes the object are neither recorded nor destroyed
  (`CreatedNeverDestroyed`).
- A target whose destroy failed is not tried again by the next destroy pass (`DestroyThenDestroy`); if all
  fail, the pass after that reports Destroyed with nothing destroyed (`DestroyedWithoutDestroying`).
- A stale cached read can create experiments for an object that is already gone (`StaleReadCreates`).
- Negative counts and percentages pass the checks and can end in a slice panic (`CountUsable`).
- "open" and "chmod" are hooked, but no recover request deletes their rules (`UnlistedSurvives`); 99 and
  100 percent mean the same (`AlwaysFires`).
- By container id, a container without an id anywhere in the pods fails the call (`IdsNeedEveryId`).

## Model

| member | source | states |
|---|---|---|
| LifecycleTheorems.FinalizerSafety | pkg/controller/chaosblade/controller.go:186-293 | in every interleaving every stored version outside Initial and Destroyed carries the finalizer exactly once, so Initialized, Running, Updating, Error and Destroying always do |
| LifecycleTheorems.EndPhasesClosed | pkg/controller/chaosblade/controller.go:202-216 | between any two versions of any run: end phases are never left, Destroyed is absorbing, the deletion timestamp never changes, and a deleting object moves only into an end phase |
| LifecycleTheorems.CreateUnderFinalizer | pkg/controller/chaosblade/controller.go:234-247 | whenever Create is being called the copy worked on carries the finalizer and is not deleting; if it was current when read, the stored object still exists with its finalizer |
| LifecycleTheorems.LeavesOnlyWhenDone | pkg/controller/chaosblade/controller.go:139-167 | an object leaves the store only from Initial, from Destroyed, or by the cleaner from Destroying with more than the interval passed since the deletion |
| LifecycleTheorems.RemovalExact | pkg/controller/chaosblade/controller.go:202-208 | for every version of every run the finalizer removal does not panic and removes exactly that entry |
| LifecycleTheorems.NoCreateAfterEnd | pkg/controller/chaosblade/controller.go:210-216 | once deleting, Destroying or Destroyed, however the run goes on: a call that reads the version then current never calls Create, whatever other calls read and whoever else acts meanwhile |
| LifecycleTheorems.CreateExactly | pkg/controller/chaosblade/controller.go:195-254 | for a call that reads any version, current or stale: it comes to create iff that version is Initialized or Updating, not deleting, and has experiments |
| LifecycleTheorems.StaleReadCreates | pkg/controller/chaosblade/controller.go:190-242 | the premise on current reads is needed: a run in which Create is called for an object that already left the store |
| Lifecycle.StepKeeps | exec/model/executor.go:115-146 | every step of reconciler, timeout goroutine, cleaner, user and server keeps the invariant behind these theorems |
| Lifecycle.RunKeeps | pkg/controller/chaosblade/controller.go:139-293 | so does every run |
| Lifecycle.PatchRemoves | pkg/controller/chaosblade/controller.go:150-161 | the unconditional patch only ever hits an object that is overdue and in an end phase, and removes it |
| Lifecycle.TimerWriteKeeps | exec/model/executor.go:117-131 | the timeout goroutine's write of Destroyed, from a version read earlier, keeps the invariant |
| Lifecycle.CommitKeeps | pkg/controller/chaosblade/controller.go:226-252 | storing any content that is sound and follows from the last version keeps the invariant for every bystander |
| Reconcile.Reconciler.Reconcile | pkg/controller/chaosblade/controller.go:186-293 | the executor calls and writes of one call, in order and with their contents, are those of the step function, for every object and all answers |
| Reconcile.Reconciler.Finalize | pkg/controller/chaosblade/controller.go:296-320 | the same for finalizeChaosBlade |
| Reconcile.Reconciler.CreateAll | pkg/controller/chaosblade/controller.go:236-253 | the same for the create loop |
| Reconcile.Reconciler.UndoAll | pkg/controller/chaosblade/controller.go:257-291 | the same for the update pass, including a missing or unreadable annotation |
| Reconcile.Reconciler.UndoEach | pkg/controller/chaosblade/controller.go:275-287 | the same for its destroy loop, including the index past the old spec |
| Passes.CreateSound | pkg/controller/chaosblade/controller.go:236-253 | for every object a create pass works on: Create once per experiment, in order, then one status write with all the answers, Running iff some succeeded and Error otherwise |
| Passes.UpdateSound | pkg/controller/chaosblade/controller.go:257-291 | an update pass without an old spec has no effect; otherwise one object write and then, whether it is taken or refused, a destroy per status with the old spec, in order, and Updating iff all succeeded, or a panic at the end of a shorter old spec |
| Passes.CreatePass | pkg/controller/chaosblade/controller.go:239-249 | the create loop ends with the answers as statuses, in order, and Running iff some succeeded |
| Passes.CreateCalls | pkg/controller/chaosblade/controller.go:241-242 | Create is called once per experiment, in order |
| Passes.FinalizeSound | pkg/controller/chaosblade/controller.go:296-320 | equal lengths: Destroy once per index, in order, on matching pairs, and Destroyed iff every call succeeded; unequal lengths: Destroyed with no call at all |
| Passes.FinalizeCalls | pkg/controller/chaosblade/controller.go:301-303 | call i of the loop is made with spec entry i and the status recorded there |
| Passes.UndoCalls | pkg/controller/chaosblade/controller.go:276-277 | the update pass pairs status i with entry i of the old spec, as far as that spec reaches |
| Passes.UndoPass | pkg/controller/chaosblade/controller.go:275-284 | it panics iff the old spec is shorter than the statuses; otherwise Updating iff every destroy succeeded |
| Passes.TraceSplit | pkg/controller/chaosblade/controller.go:241-252 | the effects of a call are its executor calls followed by its write |
| Finalizers.RemoveInPlace | pkg/controller/chaosblade/controller.go:331-338 | the shift inside the array while ranging over the old slice header, and its panic, equal the pure form |
| Finalizers.Contains | pkg/controller/chaosblade/controller.go:322-329 | membership |
| Finalizers.RemoveOnce | pkg/controller/chaosblade/controller.go:331-338 | with at most one occurrence: no panic, and the list without that element, in order |
| Finalizers.RemoveExact | pkg/controller/chaosblade/controller.go:331-338 | no panic and the list without the finalizer, in order, iff there is at most one copy, or no two are adjacent and the last entry is none |
| Finalizers.RemoveTwiceFails | pkg/controller/chaosblade/controller.go:331-338 | both ways of failing: two copies alone panic, two copies before another entry leave one behind |
| Watch.NoLostWakeup | pkg/controller/chaosblade/predicate.go:31-109 | if every update pass of a run found an old spec in the annotation, an object with experiments and an empty queue is at rest: created from its present spec, stopped in Destroying at a recorded failure, or Destroyed without the finalizer; the user may do anything |
| Watch.WakeupLostExactly | pkg/controller/chaosblade/controller.go:257-291 | after any run, a call leaves an object neither queued nor at rest iff it is an update pass that finds no old spec |
| Watch.PanicRepeats | pkg/controller/chaosblade/controller.go:275-277 | without the user, an update pass with too short an old spec panics again and again, and the object keeps phase, statuses and spec |
| Watch.TwoEditsPanic | pkg/controller/chaosblade/predicate.go:71-79 | two spec edits of a live object in a row, the first to a shorter spec, bring such a pass about |
| Watch.UpdatePairing | pkg/controller/chaosblade/controller.go:263-283 | after any run, an update pass destroys with the old spec in the annotation: in range iff it is at least as long as the creating spec, every status with its creating entry iff the creating spec is a prefix of it; if no annotation-only edit came between a spec edit of a live object and its update pass, it is the spec before the last edit, so one edit since the create is enough |
| Watch.RunKeeps | pkg/controller/chaosblade/predicate.go:59-109 | every run keeps the records of store and spec history; a run whose update passes find an old spec keeps the object awake; a run that leaves the annotation of a due update alone keeps the old spec in it |
| Watch.EditWakes | pkg/controller/chaosblade/predicate.go:71-79 | a spec edit wakes the controller in every phase, with the old spec on the cached copy |
| Watch.DropWakes | pkg/controller/chaosblade/predicate.go:85-88 | a delete removes an object without finalizers at once and wakes nobody; otherwise it wakes the controller in every phase iff the object was not deleting already |
| Watch.FilterExactly | pkg/controller/chaosblade/predicate.go:31-109 | for all objects, exactly which create, update and delete events wake the controller |
| Watch.RestartStrands | pkg/controller/chaosblade/predicate.go:31-47 | after a restart only an Initial object that is not being deleted is queued; any other stays as it is, stranded iff it was not at rest |
| Watch.SyncCreate | pkg/controller/chaosblade/controller.go:236-253 | what a whole create call leaves in store, annotation and queue |
| Watch.SyncFinalize | pkg/controller/chaosblade/controller.go:210-216 | what a whole finalize call leaves there, in all four cases |
| Watch.SyncUndo | pkg/controller/chaosblade/controller.go:257-288 | what a whole update call leaves there: its first write does not wake the controller, its second does iff the phase became Updating |
| Watch.SyncDestroyed | pkg/controller/chaosblade/controller.go:202-209 | the finalizer goes, the object leaves iff it was deleting with no other finalizer, and nobody is woken |
| Settling.Settles | pkg/controller/chaosblade/predicate.go:81-109 | after any run, three more calls empty the queue, whatever the executor answers, iff the next one is not an update pass that panics; if every update pass found an old spec so far, the object ends at rest iff the next call is no update pass or one with a long enough old spec |
| Settling.RankDrops | pkg/controller/chaosblade/controller.go:202-254 | the termination measure: a call that does not panic and leaves work in the queue lowers the rank |
| Settling.FreshSettles | pkg/controller/chaosblade/controller.go:217-254 | a fresh object takes exactly three calls, with the stated phases, finalizers and statuses, ending in Running iff some create succeeded and in Error otherwise |
| Settling.DeletedLeaves | pkg/controller/chaosblade/controller.go:202-216 | deleting a running object whose destroys succeed and whose only finalizer is this one removes it in exactly two calls |
| RecordTheorems.StatusesMatchOrigin | pkg/controller/chaosblade/controller.go:236-309 | in every interleaving a Running, Error, Updating or Destroying version records exactly one status per experiment of the version the last create pass read; a Running or Error one has been so ever since, a Destroying one records a failure |
| RecordTheorems.FinalizeExact | pkg/controller/chaosblade/controller.go:299-309 | in every interleaving, finalizing such a version destroys every recorded experiment, in order, and writes Destroyed iff all of that succeeded, iff the spec is as long as that version's; it does so with the entries that created them iff the spec is the same |
| RecordTheorems.DestroyedAccounted | pkg/controller/chaosblade/controller.go:296-320 | in every interleaving the step that stores Destroyed is a timeout goroutine's, or ends a pass whose executor calls were one successful destroy per recorded experiment, or, with lists of different length, none |
| RecordTheorems.RecordedIffAccepted | pkg/controller/chaosblade/controller.go:239-252 | in every interleaving a finished create pass has called Create once per experiment of the version it read, and what it made is stored iff its status write is accepted |
| RecordTheorems.CreatedNeverDestroyed | pkg/controller/chaosblade/controller.go:241-252 | deleting an object during its create pass: every Create is called, nothing is recorded, and Destroyed is written without a destroy call |
| RecordTheorems.InitializedIsLeaky | pkg/controller/chaosblade/controller.go:218-224 | in every run, any Initialized object with experiments that is not being deleted is open to that |
| Records.RunRecorded | pkg/controller/chaosblade/controller.go:186-293 | the invariant behind these theorems, kept by every run |
| Settling.EditThenDelete | pkg/controller/chaosblade/controller.go:299-310 | an input for the first failure: a live object edited to another length than its statuses have, and deleted, becomes Destroyed without a destroy call |
| Settling.EditThenDeleteForeign | pkg/controller/chaosblade/controller.go:299-303 | an input for the second: edited to another spec of the same length, and deleted, every experiment is destroyed with the new entries, some of them foreign |
| Settling.AnnotationLosesUpdate | pkg/controller/chaosblade/controller.go:263-291 | how a user can bring about a pass without an old spec: an annotation-only change between the spec edit and its update pass |
| Settling.EmptySpecStuck | pkg/controller/chaosblade/controller.go:195-197 | with an empty spec, deletes and calls leave the object in place for ever |
| Executor.ResultsArePermutation | exec/model/executor_nsexec.go:62-116 | in every interleaving, when Wait returns the result list is a permutation of one outcome per target |
| Executor.BoundedWork | exec/model/parallelizer.go:27-51 | at any time at most min(64, n) targets are in work, none twice, none already done |
| Executor.AlwaysReturns | exec/model/parallelizer.go:40-50 | no deadlock: until Wait returns some worker can move, and no run is longer than 8n plus the number of workers |
| Erasure.SuccessExact | exec/model/executor_nsexec.go:88-113 | for fixed answers: every interleaving reports the conjunction of the outcomes iff no target fails or no missing pod's command succeeds |
| Erasure.SuccessIsConjunction | exec/model/executor_nsexec.go:105-113 | in every run whose results hold no success for a missing pod, the reported success is the conjunction of the outcomes |
| Executor.SuccessFlag | exec/model/executor_nsexec.go:88-113 | in every run: a false flag means some target failed, a true one that all succeeded unless the unlocked store happened |
| Erasure.FailureErased | exec/model/executor_nsexec.go:95-112 | for all answers with a failing target and a missing pod whose command succeeds, some interleaving reports success over the failure |
| Executor.Outcome | exec/model/executor_nsexec.go:67-108 | a target counts as done iff it was prepared, its pod lookup did not fail otherwise than by not found, and the command succeeded |
| Executor.OutcomeFields | exec/model/executor_nsexec.go:71-108 | every field of the status recorded for a target, case by case: prepared with an error, lookup failed, tool failed, tool succeeded, pod missing |
| Conservation.ListConserved | exec/container/controller.go:108-117 | for every interleaving, the target list a destroy rebuilds from the recorded status is, as a multiset, the targets that succeeded, after a create each with the uid it returned; so after a destroy it is those already destroyed, not those that failed |
| Conservation.RebuildList | exec/pod/controller.go:70-87 | the rebuilding loop equals its pure form |
| Conservation.RebuildInOrder | exec/container/controller.go:109-117 | the rebuilt list follows the statuses: each successful one gives its parsed identifier with its uid |
| Conservation.Prepare | exec/model/executor_nsexec.go:169-217 | one identifier per target, in order, with the fields of its sandbox or container command and its tool pod, or an error iff some target needs a sandbox of another runtime than docker or containerd, or its tool pod lookup fails; a node without a tool pod is no error |
| Conservation.FailedDestroyNotRetried | exec/container/controller.go:110-113 | after a destroy pass in which everything failed the next one has nothing left to destroy |
| Identifiers.ParsePrint | exec/model/context.go:75-125 | parse(print(m)) == m up to the uid iff the first five fields contain no '/' and name, id, runtime have no gap |
| Identifiers.PrintParse | exec/model/context.go:75-125 | print(parse(s)) == s iff s splits into at least three parts with none empty after the third |
| Identifiers.PrintedParts | exec/model/context.go:76-86 | which field is which part of a printed identifier |
| Identifiers.JoinSplit | exec/model/context.go:91-91 | joining what SplitN gives restores the text |
| Texts.JoinedSplit | exec/model/filter.go:46-46 | joining what Split gives restores the text |
| Identifiers.SplitJoin | exec/model/context.go:91-91 | and the other way round for separator-free parts |
| Dispatch.ValidateAndSet | exec/controller.go:103-124 | header and state are taken over, and the nested loops change no resource |
| Dispatch.CreateDestroyedStatus | exec/model/controller.go:142-159 | same resources, same order, all marked destroyed |
| Dispatch.CreateCases | exec/controller.go:63-80 | header, success, state, error and resources of a created status for every answer, and for an unknown scope |
| Dispatch.DestroyCases | exec/controller.go:82-100 | the same after a destroy: the old header, the old state instead of Error, and the answer's success and resources; success at once without resources |
| Retry.CreateRecords | exec/model/executor_nsexec.go:119-130 | for every completed run the created status has the run's success, the state and message that go with it, and one resource per target; unless a missing pod's command succeeded it is successful iff every target is |
| Retry.DestroyRecords | exec/model/executor_nsexec.go:119-130 | the same for a destroy pass with targets, which keeps the old state after a failure |
| Retry.UnpreparedRecords | exec/model/executor_nsexec.go:53-59 | targets that cannot be prepared are recorded as a failure without any resource |
| Retry.CreateThenDestroy | exec/controller.go:63-80 | what Create records is read back by the first destroy as the targets that were created, each with its uid, for every interleaving, beside the run's success |
| Retry.DestroyThenDestroy | exec/controller.go:82-100 | what a destroy pass records is read back by the next one as the targets just destroyed, not those it failed on, beside the run's success |
| Retry.DestroyedWithoutDestroying | exec/container/controller.go:107-117 | a finalize pass in which every destroy fails writes Destroying; the next one has no target left in any experiment and writes Destroyed |
| Counting.CountIsLeast | exec/model/controller.go:102-139 | with positive or missing flags, exactly: no flags give all, a count the least of n and it, a percentage the least of n and the rounded share, both the least of the three; never an error |
| Counting.CountMonotone | exec/model/controller.go:102-139 | monotone in n, count and percentage |
| Counting.CountUsable | exec/model/controller.go:103-138 | zero resources give zero; otherwise an error iff a flag is zero or no number, and a usable slice bound iff the count is not negative and the percentage does not round below zero |
| Counting.RoundHundredths | exec/model/controller.go:131-131 | nearest integer, ties away from zero |
| Counting.RoundUnique | exec/model/controller.go:131-131 | those facts leave no other result |
| Counting.SumBounded | exec/model/filter_pod.go:92-102 | summed over groups the counts stay within the total |
| Selection.SelectAll | exec/model/filter_pod.go:68-77 | without group keys: rejected, panicking, or the first count pods, shuffled first if asked |
| Selection.GroupPods | exec/model/filter_pod.go:78-90 | the group of a label value lists every pod once per key that has the value on it, in pod order |
| Selection.SelectGrouped | exec/model/filter_pod.go:78-106 | the grouped path for some order of the groups, with all error cases |
| SelectionTheorems.GroupsFileAll | exec/model/filter_pod.go:80-90 | with k keys every pod is filed exactly k times its occurrences; with one key the groups partition the input |
| SelectionTheorems.GroupCount | exec/model/filter_pod.go:80-90 | the group of a label value holds a pod as often as it occurs, once for each key that has the value among its labels |
| SelectionTheorems.GroupInOrder | exec/model/filter_pod.go:80-90 | and in the order of the pods |
| SelectionTheorems.ChosenIs | exec/model/filter_pod.go:93-101 | a group contributes its first count pods, shuffled first iff asked |
| SelectionTheorems.ChosenBounded | exec/model/filter_pod.go:91-102 | no pod is chosen more than k times its occurrences |
| SelectionTheorems.ChosenSize | exec/model/filter_pod.go:92-102 | the result is as long as the sum over the groups of their counts |
| SelectionTheorems.OrderIrrelevant | exec/model/filter_pod.go:92-102 | map iteration order does not change which pods are chosen |
| Shuffle.ShuffleInPlace | exec/model/filter_pod.go:170-180 | the swaps inside the array equal the pure form |
| Shuffle.ShufflePermutes | exec/model/filter_pod.go:175-178 | the result is a permutation for all random numbers |
| Shuffle.ShuffleBijective | exec/model/filter_pod.go:175-178 | on distinct pods every ordering comes from exactly one choice sequence |
| Shuffle.Injective | exec/model/filter_pod.go:175-178 | different choice sequences give different orderings |
| Shuffle.Surjective | exec/model/filter_pod.go:175-178 | every ordering is reached |
| Shuffle.LastDrawn | exec/model/filter_pod.go:175-177 | the last cell is drawn first, from all of them |
| Labels.FieldIs | exec/model/filter.go:54-64 | an item gives key and value iff it reads key=value with no '=' in the key, and nothing iff it has no '=' |
| Labels.ParseLabels | exec/model/filter.go:45-77 | for every visiting order of the map: one requirement for every mentioned key the label library accepts, with all values given for it in order |
| Labels.GroupItems | exec/model/filter.go:53-66 | the map from key to values, items without '=' skipped |
| Labels.MapContains | exec/model/filter.go:79-90 | whether any requirement matches |
| Labels.SomeIsScan | exec/model/filter_pod.go:131-137 | the names path matches iff some label of the pod is given by an item that reads key=value, of an accepted key |
| Labels.AllIsScan | exec/model/filter_pod.go:150-155 | the list path matches iff every accepted key some item mentions is a label of the pod, with a value some item gives |
| Labels.AllImpliesSome | exec/model/filter_pod.go:127-155 | what the list path accepts, the names path accepts |
| Labels.PathsAgree | exec/model/filter_pod.go:127-155 | both paths accept the same label maps iff exactly one requirement is left; without any the names path accepts every pod and the list path lists none |
| Labels.Query | exec/model/filter_pod.go:110-168 | the pods found by name or by list, with every error case |
| Labels.NamedAre | exec/model/filter_pod.go:122-139 | exactly which pods the names path finds |
| Labels.NamedInOrder | exec/model/filter_pod.go:124-139 | and in the order of the names |
| Labels.StayingInOrder | exec/model/filter_pod.go:158-164 | the list path keeps the pods that are not being deleted, in the order of the list |
| Labels.ListedIsNamed | exec/model/filter_pod.go:150-165 | a pod the list path finds is found by name too; the list path alone leaves out pods being deleted |
| Containers.TruncateIs | exec/model/executor.go:363-369 | how docker and containerd ids read |
| Containers.IdIs | exec/container/controller.go:147-155 | the recorded runtime and id from the raw id: a docker id cut to 12 characters, a shorter one cannot be cut, a containerd id whole, nothing without an id |
| Containers.GetMatched | exec/container/controller.go:127-246 | the nested loops with the error variable that stays set for the rest of a pod equal the fold over the pods |
| Containers.MatchEach | exec/container/controller.go:139-203 | the container loop stops at the first container that is too short or asked for while it or an earlier one is unhealthy |
| Containers.MatchItems | exec/container/controller.go:163-202 | one entry per item that asks for the container, or a refusal |
| Containers.MatchPod | exec/container/controller.go:134-243 | one pod, with the index path and its bounds |
| ContainerTheorems.MatchedExactly | exec/container/controller.go:127-246 | success iff in every pod no id is too short to cut, everything up to an asked-for container is healthy, and by index the index exists and all containers are healthy |
| ContainerTheorems.EntriesInOrder | exec/container/controller.go:133-243 | every entry is, field by field, for a running container with an id that the flag in force points at (ids before names before index), all containers before it in its pod are healthy, and the list follows pod and container order |
| ContainerTheorems.AllChosenIn | exec/container/controller.go:163-243 | no container asked for is missing |
| ContainerTheorems.OneCopyEach | exec/container/controller.go:164-179 | a container is listed once for every item that asks for it |
| ContainerTheorems.OneEachByIndex | exec/container/controller.go:205-243 | by index there is one entry per pod with container statuses |
| ContainerTheorems.IdsNeedEveryId | exec/container/controller.go:145-172 | by id, a container without an id anywhere fails the call |
| PodContainers.MatchAvailable | exec/pod/controller.go:91-114 | pods with nothing running are skipped; a panic iff the first running container of some pod has a docker id too short to cut |
| PodContainers.OneForEachRunning | exec/model/filter.go:29-43 | one entry, field by field, for every pod with something running, in pod order, each for the first running container |
| PodContainers.UncutIs | exec/pod/controller.go:95-98 | the call panics on a running docker container with an id shorter than 12 characters or none yet, never on a containerd one |
| FaultCache.Server.Inject | pkg/hookfs/server.go:78-90 | a request that decodes sets the rule of exactly the methods it names |
| FaultCache.Server.Recover | pkg/hookfs/server.go:92-98 | every listed rule goes, every other stays |
| FaultCache.CacheIsHistory | pkg/hookfs/server.go:78-98 | for every interleaving of requests the rule of a method is the last one stored since its last delete |
| FaultCache.RecoverClears | pkg/hookfs/server.go:92-98 | a finished recover has cleared every listed method in every interleaving, unless a rule for it was stored meanwhile: calls of it then go through for every path and draw |
| FaultCache.RecoverHeals | pkg/hookfs/hook.go:449-487 | after an undisturbed recover no listed method is hurt for any path and any draw; unlisted methods behave as before |
| FaultCache.UnlistedSurvives | pkg/hookfs/types.go:19-49 | a rule for a method that is not listed outlives every sequence of requests |
| FaultCache.OpenAndChmodUnlisted | pkg/hookfs/hook.go:192-192 | "open" and "chmod" are such methods |
| FaultCache.ListedAreHooked | pkg/hookfs/types.go:19-49 | every other hooked method is listed, and nothing else is |
| FaultCache.FiresExactly | pkg/hookfs/hook.go:449-487 | when a rule fires, and with which error and delay |
| FaultCache.FiringDraws | pkg/hookfs/hook.go:474-496 | of the 99 draws a rule with an error fires on as many as its percentage says |
| FaultCache.AlwaysFires | pkg/hookfs/hook.go:474-496 | a rule fires for every draw iff it carries an error and its percentage is missing or at least 99 |
| DaemonCache.Cache.PodName | exec/model/executor.go:249-271 | new table and answer of a call are those of the pure form |
| DaemonCache.Cache.Refresh | exec/model/executor.go:273-288 | a listing replaces the table, an error leaves it |
| DaemonCache.ReplySound | exec/model/executor.go:249-288 | after any run of calls and cluster changes: an empty answer means no tool pod on the node now; any other names a pod that exists now, on that node if names are never reused on another |
| DaemonCache.RunKeeps | exec/model/executor.go:249-288 | every entry names a tool pod that was on that node at some time |
| DaemonCache.TableIsListing | exec/model/executor.go:282-286 | the table has an entry for exactly the nodes of the listing, naming a pod listed there |
| DaemonCache.LastIsKept | exec/model/executor.go:282-286 | of several tool pods on a node the last one listed is kept |
| DaemonCache.ReplyOnNode | exec/model/executor.go:249-271 | a non-empty answer is on the node now iff it does not come from the table with its name reused on another node |
| DaemonCache.ReuseMisleads | exec/model/executor.go:257-263 | a run with a reused name whose answer is on another node |

## Left out

- NoLostWakeup: needs successful writes and current reads, because after a failed write the code neither retries nor requeues.
- CountIsLeast: the percentage is computed exactly, not in `float64`, where a product next to a tie may round the other way.
- CountUsable: a percentage so large that the float product leaves the range of `int` is not covered; Go leaves the result of that conversion to the implementation, and it may be negative.
- Query: the server's listing is a parameter; that a list selector returns what matches all requirements is the label library's contract.
- SelectGrouped: random numbers, one sequence per group, are parameters, so nothing is said about the generator's seed.
- The timeout goroutine's polling of the tool: exec/model/executor.go:75 indexes `identifiers` by a position in `statuses`, which is in completion order; only its writes to the object are modelled, at any time after a create.
- exec/model/executor_copy.go: the same aggregation loop as exec/model/executor_nsexec.go, plus deployment checks over remote exec.
- exec/node/filter.go: duplicates the pod filter but never stores its groups back.
- Node scope and command strings (exec/model/executor.go:203-357): formatting only.
- The flag checks in front of the selection (exec/model/filter_pod.go:37-63, exec/container/controller.go:58-100): one-line tests for empty values.
- `ExtractExpModelFromExperimentSpec` and the controller registry: a join of strings and a map fill.
- Delays and tickers are steps that happen at some time; nothing is said about how long anything takes.
- Logging, HTTP, the file system, webhooks, deployment files.
