/** The DDTrace injection of apis/webhook/injector/ddtrace.go, as functions of the pod. */
module DDTrace {
  import opened Options
  import opened Text
  import opened Words
  import opened Pods
  import opened PodManagers
  import opened TracingRules
  import Pairs

  const ENABLED_KEY := "admission.datakit/ddtrace.enabled"
  const VOLUME := "datakit-auto-instrument"
  const MOUNT_PATH := "/datadog-lib"
  const DD_TAGS := "DD_TAGS"
  const JAVA_KEY := "JAVA_TOOL_OPTIONS"
  const JAVA_AGENT := "-javaagent:/datadog-lib/dd-java-agent.jar"
  const PYTHON_KEY := "PYTHONPATH"
  const PYTHON_VALUE := "/datadog-lib/"
  const PHP_SCAN_KEY := "PHP_INI_SCAN_DIR"
  const PHP_LOADER_KEY := "DD_LOADER_PACKAGE_PATH"
  const PHP_DEFAULT_INI := "/usr/local/etc/php/conf.d"
  const PHP_LOADER_FILE := "dd_library_loader.ini"
  const FLAVOR_GNU := "linux-gnu"
  const FLAVOR_MUSL := "linux-musl"
  const NODE_KEY := "NODE_OPTIONS"
  const NODE_OPTION := "--require=/datadog-lib" + "/node_modules/dd-trace/init"

  // ----- the settings of each language -----

  function AppendJavaAgent(value: string): string {
    if exists field <- Fields(value) :: field == JAVA_AGENT || HasPrefix(field, JAVA_AGENT + "=") then value
    else value + " " + JAVA_AGENT
  }

  function AppendOption(value: string, option: string): string {
    if option in Fields(value) then value else value + " " + option
  }

  function NodeOptions(value: string): string {
    AppendOption(value, NODE_OPTION)
  }

  predicate PathListContains(value: string, path: string) {
    path in Split(value, ':')
  }

  function PythonPath(value: string): string {
    if PathListContains(value, PYTHON_VALUE) then value
    else if value == "" then PYTHON_VALUE
    else PYTHON_VALUE + ":" + value
  }

  function PhpLoaderPath(value: string): string {
    if value != "" then value else MOUNT_PATH
  }

  function PhpScanDir(value: string): string {
    if PathListContains(value, MOUNT_PATH) then value
    else if value == "" then PHP_DEFAULT_INI + ":" + MOUNT_PATH
    else value + ":" + MOUNT_PATH
  }

  /** A variable and what its value becomes; a missing variable counts as empty. */
  datatype Setting = Setting(key: string, rewrite: string -> string)

  function JavaSetting(): Setting {
    Setting(JAVA_KEY, AppendJavaAgent)
  }

  /** The variables a language needs, in the order they are set; None when it is not supported. */
  function SettingsOf(language: string): Option<seq<Setting>> {
    if language == JAVA then Some([JavaSetting()])
    else if language == PYTHON then Some([Setting(PYTHON_KEY, PythonPath)])
    else if language == PHP then Some([Setting(PHP_LOADER_KEY, PhpLoaderPath), Setting(PHP_SCAN_KEY, PhpScanDir)])
    else if language == NODEJS then Some([Setting(NODE_KEY, NodeOptions)])
    else None
  }

  // ----- one container -----

  /** Fails when the first variable of the name refers to a value elsewhere. */
  function SetEnv(env: seq<EnvVar>, s: Setting): Option<seq<EnvVar>> {
    var i := FirstNamed(env, EnvName, s.key, 0);
    if i < |env| && env[i].valueFrom.Some? then None
    else Some(WithEnvVar(env, EnvVar(s.key, s.rewrite(""), None), Some(Rewriting(s))))
  }

  function Rewriting(s: Setting): Resolver {
    (existing: EnvVar, incoming: EnvVar) => existing.(value := s.rewrite(existing.value))
  }

  function LibraryMount(): VolumeMount {
    VolumeMount(VOLUME, MOUNT_PATH, "", "", "")
  }

  predicate HasLibraryMount(c: Container) {
    exists i | 0 <= i < |c.mounts| :: c.mounts[i].name == VOLUME && c.mounts[i].mountPath == MOUNT_PATH
  }

  // ----- the pod -----

  /** One setting on every container, or failure if one container refuses it. */
  function SetOnAll(containers: seq<Container>, s: Setting): Option<seq<Container>> {
    if exists i | 0 <= i < |containers| :: SetEnv(containers[i].env, s).None? then None
    else Some(seq(|containers|, i requires 0 <= i < |containers| =>
                  var env := SetEnv(containers[i].env, s);
                  if env.Some? then containers[i].(env := env.value) else containers[i]))
  }

  function InjectConfig(pod: Pod, settings: seq<Setting>): Option<Pod>
    decreases |settings|
  {
    if settings == [] then Some(pod)
    else
      match SetOnAll(pod.containers, settings[0])
      case None => None
      case Some(containers) =>
        InjectConfig(pod.(containers := WithMountOnAll(containers, LibraryMount())), settings[1..])
  }

  function LoaderFlavor(rule: Rule): string {
    if rule.phpLoaderFlavor == FLAVOR_GNU || rule.phpLoaderFlavor == FLAVOR_MUSL then rule.phpLoaderFlavor
    else FLAVOR_GNU
  }

  function CopyCommand(rule: Rule): seq<string> {
    if rule.language == PHP
    then ["sh", "-c", "/datadog-init/copy-lib.sh " + MOUNT_PATH + " && cp " + MOUNT_PATH + "/" + LoaderFlavor(rule)
                      + "/loader/" + PHP_LOADER_FILE + " " + MOUNT_PATH + "/" + PHP_LOADER_FILE]
    else ["sh", "copy-lib.sh", MOUNT_PATH]
  }

  function InitContainer(rule: Rule, image: string): Container {
    Container(DDTRACE_INIT,
              ContainerSpec(image, CopyCommand(rule), [], rule.pullPolicy, rule.resources, None, ""),
              [], [LibraryMount()])
  }

  function LibraryVolume(): Volume {
    Volume(VOLUME, true, "")
  }

  /** Tags that are already there stay, in front of the new ones, at the end of the environment. */
  function MergeTags(env: seq<EnvVar>, incoming: EnvVar): seq<EnvVar> {
    var i := FirstNamed(env, EnvName, DD_TAGS, 0);
    if i == |env| then env + [incoming]
    else if env[i].valueFrom.Some? then env
    else env[..i] + env[i + 1..] + [incoming.(value := Pairs.Append(env[i].value, incoming.value))]
  }

  /** One variable of the rule on one container. */
  function GlobalEnv(env: seq<EnvVar>, incoming: EnvVar): seq<EnvVar> {
    if incoming.name == DD_TAGS
    then if incoming.value == "" || incoming.valueFrom.Some? then env else MergeTags(env, incoming)
    else WithEnvVar(env, incoming, Some(KeepExisting))
  }

  function GlobalEnvs(env: seq<EnvVar>, incoming: seq<EnvVar>): seq<EnvVar>
    decreases |incoming|
  {
    if incoming == [] then env else GlobalEnvs(GlobalEnv(env, incoming[0]), incoming[1..])
  }

  function GlobalEnvsOnAll(containers: seq<Container>, incoming: seq<EnvVar>): seq<Container> {
    seq(|containers|, i requires 0 <= i < |containers| =>
        containers[i].(env := GlobalEnvs(containers[i].env, incoming)))
  }

  /** The complete injection, or None when a container refuses a setting. */
  function Inject(config: Config, pod: Pod, selection: Selection, settings: seq<Setting>): Option<Pod> {
    var rule := selection.rule;
    var started := pod.(initContainers :=
                          AddNamed(pod.initContainers, ContainerName, InitContainer(rule, ImageOf(config, selection))));
    match InjectConfig(started, settings)
    case None => None
    case Some(configured) =>
      Some(configured.(
             volumes := AddNamed(configured.volumes, VolumeName, LibraryVolume()),
             containers := GlobalEnvsOnAll(configured.containers, RuleEnvs(rule, configured.containers))))
  }

  // ----- repair on reinvocation -----

  predicate CanRepair(pod: Pod) {
    && IsEmptyDir(pod, VOLUME)
    && var i := FirstNamed(pod.initContainers, ContainerName, DDTRACE_INIT, 0);
       i < |pod.initContainers| && HasLibraryMount(pod.initContainers[i])
  }

  function Repaired(c: Container): Container {
    if !HasLibraryMount(c) then c
    else
      match SetEnv(c.env, JavaSetting())
      case None => c
      case Some(env) => c.(env := env)
  }

  function RepairJava(pod: Pod): Pod {
    if CanRepair(pod)
    then pod.(containers := seq(|pod.containers|, i requires 0 <= i < |pod.containers| => Repaired(pod.containers[i])))
    else pod
  }

  // ----- the whole step -----

  function VersionKey(language: string): string {
    "admission.datakit/" + language + "-lib.version"
  }

  function MatchingRule(config: Config, requested: string, pod: Pod): Option<Selection> {
    if !IsEnabled(pod.annotations, ENABLED_KEY) || HasInitContainer(pod, OTEL_INIT) then None
    else
      var rules := config.ddtrace(EffectiveNamespace(requested, pod), pod.identity.labels);
      SelectRule(rules, pod.annotations, VersionKey)
  }

  datatype Outcome = Outcome(selected: bool, pod: Pod)

  function Process(config: Config, requested: string, pod: Pod): Outcome {
    match MatchingRule(config, requested, pod)
    case None => Outcome(false, pod)
    case Some(selection) =>
      if HasInitContainer(pod, DDTRACE_INIT)
      then Outcome(true, if selection.rule.language == JAVA then RepairJava(pod) else pod)
      else
        match SettingsOf(selection.rule.language)
        case None => Outcome(true, pod)
        case Some(settings) =>
          match Inject(config, pod, selection, settings)
          case None => Outcome(true, pod)
          case Some(injected) => Outcome(true, injected)
  }
}
