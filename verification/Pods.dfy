/**
 The part of a Kubernetes pod that admission reads or writes, and what each helper of
 pkg/manager does to it.
 */
module Pods {
  import opened Options

  /** A value reference is kept as one opaque text. */
  datatype EnvVar = EnvVar(name: string, value: string, valueFrom: Option<string>)

  /** `other` stands for the fields that nothing here looks at. */
  datatype VolumeMount = VolumeMount(name: string, mountPath: string, subPath: string, subPathExpr: string,
        other: string)

  datatype Volume = Volume(name: string, emptyDir: bool, other: string)

  datatype SecurityContext = SecurityContext(runAsNonRoot: Option<bool>, runAsUser: Option<int>, other: string)

  /** Everything of a container except its name, environment and mounts. */
  datatype ContainerSpec = ContainerSpec(
    image: string,
    command: seq<string>,
    args: seq<string>,
    pullPolicy: string,
    resources: string,
    security: Option<SecurityContext>,
    other: string)

  datatype Container = Container(name: string, spec: ContainerSpec, env: seq<EnvVar>, mounts: seq<VolumeMount>)

  /** The part of a pod that admission only reads. */
  datatype PodIdentity = PodIdentity(
    name: string,
    podNamespace: string,
    labels: map<string, string>,
    security: Option<SecurityContext>)

  datatype Pod = Pod(
    identity: PodIdentity,
    annotations: map<string, string>,
    shareProcessNamespace: Option<bool>,
    restartPolicy: string,
    volumes: seq<Volume>,
    initContainers: seq<Container>,
    containers: seq<Container>)

  // ----- names -----

  /** The first position, at or after `from`, of an item with the name; the length if there is none. */
  function FirstNamed<T>(items: seq<T>, nameOf: T -> string, name: string, from: nat): (i: nat)
    requires from <= |items|
    ensures from <= i <= |items|
    ensures forall k | from <= k < i :: nameOf(items[k]) != name
    ensures i < |items| ==> nameOf(items[i]) == name
    decreases |items| - from
  {
    if from == |items| || nameOf(items[from]) == name then from else FirstNamed(items, nameOf, name, from + 1)
  }

  predicate HasName<T>(items: seq<T>, nameOf: T -> string, name: string) {
    exists i | 0 <= i < |items| :: nameOf(items[i]) == name
  }

  predicate DistinctNames<T>(items: seq<T>, nameOf: T -> string) {
    forall i, j | 0 <= i < j < |items| :: nameOf(items[i]) != nameOf(items[j])
  }

  /** Appends an item unless the list already has one of its name. */
  function AddNamed<T>(items: seq<T>, nameOf: T -> string, item: T): seq<T> {
    if HasName(items, nameOf, nameOf(item)) then items else items + [item]
  }

  function VolumeName(v: Volume): string { v.name }

  function ContainerName(c: Container): string { c.name }

  function MountName(m: VolumeMount): string { m.name }

  function EnvName(e: EnvVar): string { e.name }

  // ----- environment variables -----

  type Resolver = (EnvVar, EnvVar) -> EnvVar

  /** Updates the first variable of the incoming name in place, or appends the incoming one. */
  function WithEnvVar(envs: seq<EnvVar>, incoming: EnvVar, resolve: Option<Resolver>): seq<EnvVar> {
    var i := FirstNamed(envs, EnvName, incoming.name, 0);
    if i == |envs| then envs + [incoming]
    else if resolve.None? then envs
    else envs[i := resolve.value(envs[i], incoming)]
  }

  function WithEnvVars(envs: seq<EnvVar>, incoming: seq<EnvVar>, resolve: Option<Resolver>): seq<EnvVar>
    decreases |incoming|
  {
    if incoming == [] then envs
    else WithEnvVars(WithEnvVar(envs, incoming[0], resolve), incoming[1..], resolve)
  }

  function KeepExisting(existing: EnvVar, incoming: EnvVar): EnvVar { existing }

  // ----- volume mounts -----

  function WithMount(c: Container, mount: VolumeMount): Container {
    c.(mounts := AddNamed(c.mounts, MountName, mount))
  }

  function WithMountOnAll(containers: seq<Container>, mount: VolumeMount): seq<Container> {
    seq(|containers|, i requires 0 <= i < |containers| => WithMount(containers[i], mount))
  }

  function WithMountOnNamed(containers: seq<Container>, name: string, mount: VolumeMount): seq<Container> {
    seq(|containers|, i requires 0 <= i < |containers| =>
        if containers[i].name == name then WithMount(containers[i], mount) else containers[i])
  }
}
