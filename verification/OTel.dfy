/** The OpenTelemetry injection of apis/webhook/injector/otel.go, as functions of the pod. */
module OTel {
  import opened Options
  import opened Text
  import opened Words
  import opened Pods
  import opened TracingRules
  import DDTrace

  const ENABLED_KEY := "admission.datakit/otel.enabled"
  const VOLUME := "datakit-otel-auto-instrument"

  const JAVA_MOUNT := "/otel-auto-instrumentation-java"
  const JAVA_SOURCE := "/javaagent.jar"
  const JAVA_AGENT_PATH := JAVA_MOUNT + "/javaagent.jar"
  const JAVA_KEY := "JAVA_TOOL_OPTIONS"
  const JAVA_OPTION := "-javaagent:" + JAVA_AGENT_PATH
  const DD_JAVA_AGENT_FILE := "dd-java-agent.jar"

  const PYTHON_MOUNT := "/otel-auto-instrumentation-python"
  const LIBRARY_SOURCE := "/autoinstrumentation/."
  const PYTHON_KEY := "PYTHONPATH"
  const PYTHON_PREFIX := PYTHON_MOUNT + PYTHON_SUBPATH
  const PYTHON_SUBPATH := "/opentelemetry/instrumentation" + "/auto_instrumentation"

  const NODE_MOUNT := "/otel-auto-instrumentation-nodejs"
  const NODE_KEY := "NODE_OPTIONS"
  const NODE_PATH := NODE_MOUNT + "/autoinstrumentation.js"
  const REQUIRE := "--require"
  const DD_NODE_MODULE := "dd-trace/init"

  // ----- the values of each language -----

  function WithOption(value: string, option: string): string {
    if option in Fields(value) then value
    else if value == "" then option
    else value + " " + option
  }

  function JavaOptions(value: string): string {
    WithOption(value, JAVA_OPTION)
  }

  function CountIn(parts: seq<string>, part: string): nat {
    if parts == [] then 0 else (if parts[0] == part then 1 else 0) + CountIn(parts[1..], part)
  }

  /** The list starts with one path and ends with another, and has each of them once. */
  predicate IsFramed(parts: seq<string>, first: string, last: string) {
    && |parts| >= 2 && parts[0] == first && parts[|parts| - 1] == last
    && CountIn(parts, first) == 1 && CountIn(parts, last) == 1
  }

  predicate IsPythonPathInjected(value: string) {
    IsFramed(Split(value, ':'), PYTHON_PREFIX, PYTHON_MOUNT)
  }

  predicate HasPathComponent(value: string, path: string) {
    path in Split(value, ':') || path + "/" in Split(value, ':')
  }

  function Framed(value: string, first: string, last: string): string {
    if IsFramed(Split(value, ':'), first, last) then value
    else if value == "" then first + ":" + last
    else first + ":" + value + ":" + last
  }

  function PythonPath(value: string): string {
    Framed(value, PYTHON_PREFIX, PYTHON_MOUNT)
  }

  /** How many times a field is followed by another one. */
  function PairCount(fields: seq<string>, a: string, b: string): nat {
    if |fields| < 2 then 0
    else (if fields[0] == a && fields[1] == b then 1 else 0) + PairCount(fields[1..], a, b)
  }

  /** How many times a field "--require" is followed by the library. */
  function RequireCount(value: string): nat {
    PairCount(Fields(value), REQUIRE, NODE_PATH)
  }

  function NodeOptions(value: string): string {
    if RequireCount(value) == 1 then value else value + " " + REQUIRE + " " + NODE_PATH
  }

  predicate IsDatadogModule(target: string) {
    var path := TrimSuffix(Trim(target, "\"'"), ".js");
    path == DD_NODE_MODULE || HasSuffix(path, "/node_modules/" + DD_NODE_MODULE)
  }

  /** A field -r or --require takes the next field; the forms with '=' hold their own. */
  predicate RequiresDatadog(fields: seq<string>) {
    if fields == [] then false
    else if fields[0] == REQUIRE || fields[0] == "-r" then
      |fields| > 1 && (IsDatadogModule(fields[1]) || RequiresDatadog(fields[2..]))
    else if HasPrefix(fields[0], "--require=") then
      IsDatadogModule(TrimPrefix(fields[0], "--require=")) || RequiresDatadog(fields[1..])
    else if HasPrefix(fields[0], "-r=") then
      IsDatadogModule(TrimPrefix(fields[0], "-r=")) || RequiresDatadog(fields[1..])
    else RequiresDatadog(fields[1..])
  }

  // ----- languages -----

  /** What one language injects: `missing` is the value of a variable that was not there. */
  datatype Library = Library(
    mountPath: string,
    command: seq<string>,
    key: string,
    missing: string,
    rewrite: string -> string,
    accepts: string -> bool)

  predicate JavaAccepts(value: string) {
    !Contains(value, DD_JAVA_AGENT_FILE)
  }

  predicate PythonAccepts(value: string) {
    && !HasPathComponent(value, DDTrace.MOUNT_PATH)
    && (|| IsPythonPathInjected(value)
        || (!HasPathComponent(value, PYTHON_PREFIX) && !HasPathComponent(value, PYTHON_MOUNT)))
  }

  predicate NodeAccepts(value: string) {
    && !Contains(value, DDTrace.MOUNT_PATH) && !RequiresDatadog(Fields(value))
    && var pairs := RequireCount(value);
       var paths := Count(value, TrimPrefix(NODE_MOUNT, "/"));
       pairs <= 1 && (paths > 0 ==> pairs == 1 && paths == 1)
  }

  function LibraryOf(language: string): Option<Library> {
    if language == JAVA then
      Some(Library(JAVA_MOUNT, ["cp", JAVA_SOURCE, JAVA_AGENT_PATH], JAVA_KEY, JAVA_OPTION, JavaOptions, JavaAccepts))
    else if language == PYTHON then
      Some(Library(PYTHON_MOUNT, ["cp", "-r", LIBRARY_SOURCE, PYTHON_MOUNT], PYTHON_KEY,
                   PYTHON_PREFIX + ":" + PYTHON_MOUNT, PythonPath, PythonAccepts))
    else if language == NODEJS then
      Some(Library(NODE_MOUNT, ["cp", "-r", LIBRARY_SOURCE, NODE_MOUNT], NODE_KEY,
                   " " + REQUIRE + " " + NODE_PATH, NodeOptions, NodeAccepts))
    else None
  }

  // ----- validation -----

  /** The variable occurs at most once, holds its own value, and the value is acceptable. */
  predicate EnvAccepted(env: seq<EnvVar>, key: string, accepts: string -> bool) {
    && (forall i, j | 0 <= i < j < |env| :: !(env[i].name == key && env[j].name == key))
    && (forall i | 0 <= i < |env| :: env[i].name == key ==> env[i].valueFrom.None? && accepts(env[i].value))
  }

  predicate MountAccepted(mount: VolumeMount, mountPath: string) {
    && mount.mountPath != DDTrace.MOUNT_PATH && TrimSuffix(mount.mountPath, "/") != DDTrace.MOUNT_PATH
    && (mount.name == VOLUME <==> mount.mountPath == mountPath)
    && (mount.name == VOLUME ==> mount.subPath == "" && mount.subPathExpr == "")
  }

  function LibraryMount(mountPath: string): VolumeMount {
    VolumeMount(VOLUME, mountPath, "", "", "")
  }

  predicate SecurityCompatible(config: Config, desired: Option<SecurityContext>, existing: Option<SecurityContext>) {
    desired.Some? ==> existing.Some? && config.derives(desired.value, existing.value)
  }

  /** This mount, and no other, is of the library volume. */
  predicate OwnsOnly(mounts: seq<VolumeMount>, i: nat) {
    && i < |mounts| && mounts[i].name == VOLUME
    && (forall k | 0 <= k < |mounts| && k != i :: mounts[k].name != VOLUME)
  }

  predicate Collides(mount: VolumeMount, wanted: VolumeMount) {
    mount.name == wanted.name || mount.mountPath == wanted.mountPath
  }

  /** The wanted mount is there, and no other has its name or its path. */
  predicate MountedOnce(mounts: seq<VolumeMount>, wanted: VolumeMount) {
    exists i | 0 <= i < |mounts| ::
      mounts[i] == wanted && forall k | 0 <= k < |mounts| && k != i :: !Collides(mounts[k], wanted)
  }

  /** An init container already there must be the one that would be added. */
  predicate InitCompatible(config: Config, existing: Container, desired: Container) {
    && existing.spec.image == desired.spec.image
    && existing.spec.command == desired.spec.command
    && existing.spec.args == desired.spec.args
    && existing.spec.pullPolicy == desired.spec.pullPolicy
    && existing.spec.resources == desired.spec.resources
    && SecurityCompatible(config, desired.spec.security, existing.spec.security)
    && (exists i | 0 <= i < |desired.mounts| ::
          OwnsOnly(desired.mounts, i) && MountedOnce(existing.mounts, desired.mounts[i]))
  }

  predicate CommonAccepted(config: Config, image: string, pod: Pod, desired: Container, mountPath: string) {
    && !IsBlank(image)
    && pod.containers != []
    && (forall c <- pod.initContainers :: c.name != DDTRACE_INIT)
    && (forall c <- pod.initContainers :: c.name == OTEL_INIT ==> InitCompatible(config, c, desired))
    && (forall v <- pod.volumes :: v.name == VOLUME ==> v.emptyDir)
    && (forall c <- pod.containers :: forall m <- c.mounts :: MountAccepted(m, mountPath))
  }

  predicate Accepted(config: Config, image: string, pod: Pod, desired: Container, library: Library) {
    && CommonAccepted(config, image, pod, desired, library.mountPath)
    && (forall c <- pod.containers :: EnvAccepted(c.env, library.key, library.accepts))
  }

  /** The container runs as non-root but names no such user. */
  predicate LacksNonRootUser(podSecurity: Option<SecurityContext>, containerSecurity: Option<SecurityContext>) {
    var nonRoot :=
      if containerSecurity.Some? && containerSecurity.value.runAsNonRoot.Some? then containerSecurity.value.runAsNonRoot
      else if podSecurity.Some? then podSecurity.value.runAsNonRoot
      else None;
    var user :=
      if containerSecurity.Some? && containerSecurity.value.runAsUser.Some? then containerSecurity.value.runAsUser
      else if podSecurity.Some? then podSecurity.value.runAsUser
      else None;
    nonRoot == Some(true) && (user.None? || user.value == 0)
  }

  // ----- injection -----

  function InitContainer(rule: Rule, image: string, library: Library, containers: seq<Container>): Container {
    Container(OTEL_INIT,
              ContainerSpec(image, library.command, [], rule.pullPolicy, rule.resources,
                            if containers == [] then None else containers[0].spec.security, ""),
              [], [LibraryMount(library.mountPath)])
  }

  /** The first variable of the name is rewritten in place, and a missing one is appended. */
  function SetEnv(env: seq<EnvVar>, library: Library): seq<EnvVar> {
    var i := FirstNamed(env, EnvName, library.key, 0);
    if i == |env| then env + [EnvVar(library.key, library.missing, None)]
    else env[i := env[i].(value := library.rewrite(env[i].value))]
  }

  function Instrumented(c: Container, library: Library): Container {
    WithMount(c.(env := SetEnv(c.env, library)), LibraryMount(library.mountPath))
  }

  function InstrumentedAll(containers: seq<Container>, library: Library): seq<Container> {
    seq(|containers|, i requires 0 <= i < |containers| => Instrumented(containers[i], library))
  }

  function EnvsOnAll(containers: seq<Container>, incoming: seq<EnvVar>): seq<Container> {
    seq(|containers|, i requires 0 <= i < |containers| =>
        containers[i].(env := WithEnvVars(containers[i].env, incoming, Some(KeepExisting))))
  }

  function LibraryVolume(): Volume {
    Volume(VOLUME, true, "")
  }

  function Inject(pod: Pod, rule: Rule, desired: Container, library: Library): Pod {
    var instrumented := InstrumentedAll(pod.containers, library);
    pod.(initContainers := AddNamed(pod.initContainers, ContainerName, desired),
         volumes := AddNamed(pod.volumes, VolumeName, LibraryVolume()),
         containers := EnvsOnAll(instrumented, RuleEnvs(rule, instrumented)))
  }

  function VersionKey(language: string): string {
    "admission.datakit/otel-" + language + "-lib.version"
  }

  function MatchingRule(config: Config, requested: string, pod: Pod): Option<Selection> {
    if !IsEnabled(pod.annotations, ENABLED_KEY) then None
    else SelectRule(config.otel(EffectiveNamespace(requested, pod), pod.identity.labels), pod.annotations, VersionKey)
  }

  function Process(config: Config, requested: string, pod: Pod): Pod {
    match MatchingRule(config, requested, pod)
    case None => pod
    case Some(selection) =>
      match LibraryOf(selection.rule.language)
      case None => pod
      case Some(library) =>
        var desired := InitContainer(selection.rule, ImageOf(config, selection), library, pod.containers);
        if LacksNonRootUser(pod.identity.security, desired.spec.security)
           || !Accepted(config, selection.rule.image, pod, desired, library)
        then pod
        else Inject(pod, selection.rule, desired, library)
  }
}
