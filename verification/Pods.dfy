/** The parts of a pod that target selection looks at. */
module Pods {
  import opened BladeTypes

  /** `id` is the raw container id of the status, such as "docker://0123...". */
  datatype ContainerStatus = ContainerStatus(name: string, id: string, running: bool)

  /** `containers` is None for a nil list of container statuses. */
  datatype Pod = Pod(
    name: string, namespace: string, node: string,
    labels: map<string, string>,
    containers: Option<seq<ContainerStatus>>)
}
