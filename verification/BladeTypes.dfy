/** The ChaosBlade custom resource: what the API server stores and what the
    controller reads, decides on and writes back. */
module BladeTypes {

  datatype Option<+T> = None | Some(value: T)

  datatype Phase = Initial | Initialized | Running | Updating | Destroying | Destroyed | Error

  datatype FlagSpec = FlagSpec(name: string, value: seq<string>)

  datatype ExpSpec = ExpSpec(
    scope: string, target: string, action: string, desc: string, matchers: seq<FlagSpec>)

  /** One target of one experiment. `id` is the uid the tool returned on create. */
  datatype ResStatus = ResStatus(
    id: string, state: string, code: int, error: string, success: bool, kind: string, identifier: string)

  /** One experiment. A nil and an empty resource list are read the same way everywhere. */
  datatype ExpStatus = ExpStatus(
    scope: string, target: string, action: string,
    success: bool, state: string, error: string, resources: seq<ResStatus>)

  /** The `preSpec` annotation: missing (or empty), not parseable, or a serialized old spec. */
  datatype Note = Absent | Garbled | OldSpec(experiments: seq<ExpSpec>)

  /** The stored object. `statuses` is None for a nil list. `version` is the resource version. */
  datatype Blade = Blade(
    spec: seq<ExpSpec>,
    phase: Phase,
    statuses: Option<seq<ExpStatus>>,
    finalizers: seq<string>,
    deletion: Option<nat>,
    preSpec: Note,
    version: nat)

  const FINALIZER: string := "finalizer.chaosblade.io"

  predicate Deleting(b: Blade) { b.deletion.Some? }

  predicate AtEnd(p: Phase) { p == Destroying || p == Destroyed }
}
