/**
 The tracing injectors as they work: loops over rules, words and containers, and changes of the
 pod in place.  A nil pod, which the source reports as an error, cannot be passed here.
 */
module TracingResources {
  import opened Options
  import opened Text
  import opened Words
  import opened Pods
  import opened PodManagers
  import opened TracingRules
  import opened PairProperties
  import DDTrace
  import OTel
  import Tracing

  // ----- reading rules, paths and options -----

  method SelectMatching(rules: seq<Rule>, annotations: map<string, string>, versionKey: string -> string)
    returns (r: Option<Selection>)
    ensures r == SelectRule(rules, annotations, versionKey)
  {
    for i := 0 to |rules|
      invariant SelectRule(rules[i..], annotations, versionKey) == SelectRule(rules, annotations, versionKey)
    {
      assert rules[i..][1..] == rules[i + 1..];
      var rule := rules[i];
      if !rule.checkAnnotation {
        return Some(Selection(rule, None));
      }
      var key := versionKey(rule.language);
      if key in annotations {
        return Some(Selection(rule, Some(annotations[key])));
      }
    }
    return None;
  }

  method AppendJavaAgentIfMissing(value: string) returns (r: string)
    ensures r == DDTrace.AppendJavaAgent(value)
  {
    var fields := Fields(value);
    for i := 0 to |fields|
      invariant forall k | 0 <= k < i ::
                  fields[k] != DDTrace.JAVA_AGENT && !HasPrefix(fields[k], DDTrace.JAVA_AGENT + "=")
    {
      if fields[i] == DDTrace.JAVA_AGENT || HasPrefix(fields[i], DDTrace.JAVA_AGENT + "=") {
        return value;
      }
    }
    return value + " " + DDTrace.JAVA_AGENT;
  }

  method ContainsPart(parts: seq<string>, part: string) returns (r: bool)
    ensures r == (part in parts)
  {
    for i := 0 to |parts|
      invariant part !in parts[..i]
    {
      if parts[i] == part {
        return true;
      }
    }
    return false;
  }

  method AppendOptionIfMissing(value: string, option: string) returns (r: string)
    ensures r == DDTrace.AppendOption(value, option)
  {
    var present := ContainsPart(Fields(value), option);
    r := if present then value else value + " " + option;
  }

  method CountParts(parts: seq<string>, part: string) returns (n: nat)
    ensures n == OTel.CountIn(parts, part)
  {
    n := 0;
    for i := 0 to |parts|
      invariant n + OTel.CountIn(parts[i..], part) == OTel.CountIn(parts, part)
    {
      assert parts[i..][1..] == parts[i + 1..];
      if parts[i] == part {
        n := n + 1;
      }
    }
  }

  method IsOTelPythonPathInjected(value: string) returns (r: bool)
    ensures r == OTel.IsPythonPathInjected(value)
  {
    var components := Split(value, ':');
    if |components| < 2 || components[0] != OTel.PYTHON_PREFIX || components[|components| - 1] != OTel.PYTHON_MOUNT {
      return false;
    }
    var prefixCount := CountParts(components, OTel.PYTHON_PREFIX);
    var suffixCount := CountParts(components, OTel.PYTHON_MOUNT);
    return prefixCount == 1 && suffixCount == 1;
  }

  method CountNodeJSRequireOptions(value: string) returns (count: nat)
    ensures count == OTel.RequireCount(value)
  {
    var fields := Fields(value);
    count := 0;
    var i := 0;
    while i + 1 < |fields|
      invariant 0 <= i <= |fields|
      invariant count + OTel.PairCount(fields[i..], OTel.REQUIRE, OTel.NODE_PATH) == OTel.RequireCount(value)
    {
      assert fields[i..][1..] == fields[i + 1..];
      if fields[i] == OTel.REQUIRE && fields[i + 1] == OTel.NODE_PATH {
        count := count + 1;
      }
      i := i + 1;
    }
  }

  method ContainsDatadogNodeJSRequire(value: string) returns (r: bool)
    ensures r == OTel.RequiresDatadog(Fields(value))
  {
    hide Fields, OTel.IsDatadogModule, HasPrefix;
    var fields := Fields(value);
    var i := 0;
    NoModuleIsDatadog();
    while i < |fields|
      invariant 0 <= i <= |fields|
      invariant OTel.RequiresDatadog(fields[i..]) == OTel.RequiresDatadog(fields)
    {
      assert fields[i..][1..] == fields[i + 1..];
      var target := "";
      if fields[i] == OTel.REQUIRE || fields[i] == "-r" {
        if i + 1 < |fields| {
          assert fields[i..][2..] == fields[i + 2..];
          target := fields[i + 1];
          i := i + 1;
        }
      } else if HasPrefix(fields[i], "--require=") {
        target := TrimPrefix(fields[i], "--require=");
      } else if HasPrefix(fields[i], "-r=") {
        target := TrimPrefix(fields[i], "-r=");
      }
      if OTel.IsDatadogModule(target) {
        return true;
      }
      i := i + 1;
    }
    return false;
  }

  lemma NoModuleIsDatadog()
    ensures !OTel.IsDatadogModule("")
  {
    assert TrimLeft("", "\"'") == "" && TrimRight("", "\"'") == "";
    assert TrimSuffix("", ".js") == "";
  }

  // ----- environments -----

  /** A Go slice as an array of which a front part is in use: elements [i, j) are cut out and the rest is cleared. */
  method DeleteSlice<E>(s: array<E>, i: nat, j: nat, zero: E) returns (length: nat)
    requires i <= j <= s.Length
    modifies s
    ensures length == s.Length - (j - i)
    ensures s[..length] == old(s[..i]) + old(s[j..])
    ensures forall k | length <= k < s.Length :: s[k] == zero
  {
    length := s.Length - (j - i);
    if i == j {
      assert s[..] == s[..i] + s[i..];
      return;
    }
    var gap := j - i;
    for k := i to length
      invariant s[..i] == old(s[..i])
      invariant forall m | i <= m < k :: s[m] == old(s[m + gap])
      invariant forall m | k <= m < s.Length :: s[m] == old(s[m])
    {
      s[k] := s[k + gap];
    }
    for k := length to s.Length
      invariant s[..i] == old(s[..i])
      invariant forall m | i <= m < length :: s[m] == old(s[m + gap])
      invariant forall m | length <= m < k :: s[m] == zero
    {
      s[k] := zero;
    }
    assert s[..length] == s[..i] + s[i..length];
    assert s[i..length] == old(s[j..]);
  }

  method AddOrMergeDDTagsEnvVar(envs: seq<EnvVar>, incoming: EnvVar) returns (r: seq<EnvVar>)
    ensures r == DDTrace.MergeTags(envs, incoming)
  {
    for i := 0 to |envs|
      invariant forall k | 0 <= k < i :: envs[k].name != DDTrace.DD_TAGS
    {
      if envs[i].name == DDTrace.DD_TAGS {
        assert FirstNamed(envs, EnvName, DDTrace.DD_TAGS, 0) == i;
        if envs[i].valueFrom.Some? {
          return envs;
        }
        var value := AppendKVPairs(envs[i].value, incoming.value);
        return envs[..i] + envs[i + 1..] + [incoming.(value := value)];
      }
    }
    return envs + [incoming];
  }

  /** Fails without a change when the first variable of the name refers to a value elsewhere. */
  method InjectDDTraceEnv(env: seq<EnvVar>, s: DDTrace.Setting) returns (r: Option<seq<EnvVar>>)
    ensures r == DDTrace.SetEnv(env, s)
  {
    for i := 0 to |env|
      invariant forall k | 0 <= k < i :: env[k].name != s.key
    {
      if env[i].name == s.key {
        assert FirstNamed(env, EnvName, s.key, 0) == i;
        if env[i].valueFrom.Some? {
          return None;
        }
        break;
      }
    }
    var updated := AddOrUpdateEnvVar(env, EnvVar(s.key, s.rewrite(""), None), Some(DDTrace.Rewriting(s)));
    r := Some(updated);
  }

  method EnvIndex(envs: seq<EnvVar>, name: string) returns (i: nat)
    ensures i == FirstNamed(envs, EnvName, name, 0)
  {
    i := 0;
    while i < |envs| && envs[i].name != name
      invariant i <= |envs| && forall k | 0 <= k < i :: envs[k].name != name
    {
      i := i + 1;
    }
  }

  method HasMount(c: Container) returns (r: bool)
    ensures r == DDTrace.HasLibraryMount(c)
  {
    for i := 0 to |c.mounts|
      invariant forall k | 0 <= k < i ::
                  !(c.mounts[k].name == DDTrace.VOLUME && c.mounts[k].mountPath == DDTrace.MOUNT_PATH)
    {
      if c.mounts[i].name == DDTrace.VOLUME && c.mounts[i].mountPath == DDTrace.MOUNT_PATH {
        return true;
      }
    }
    return false;
  }

  // ----- DDTrace -----

  class DDTraceResource {
    var requested: string
    const manager: PodManager
    const config: Config

    constructor (config: Config, requested: string, manager: PodManager)
      ensures this.config == config && this.requested == requested && this.manager == manager
    {
      this.config, this.requested, this.manager := config, requested, manager;
    }

    method GetMatchingRule() returns (r: Option<Selection>)
      ensures r == DDTrace.MatchingRule(config, requested, manager.pod)
    {
      if !IsEnabled(manager.pod.annotations, DDTrace.ENABLED_KEY) {
        return None;
      }
      var otel := manager.ContainsInitContainer(OTEL_INIT);
      if otel {
        return None;
      }
      r := SelectMatching(config.ddtrace(EffectiveNamespace(requested, manager.pod), manager.pod.identity.labels),
                          manager.pod.annotations, DDTrace.VersionKey);
    }

    method RepairJavaAgentEnv()
      modifies manager
      ensures manager.pod == DDTrace.RepairJava(old(manager.pod))
    {
      hide DDTrace.SetEnv, DDTrace.HasLibraryMount;
      var emptyDir := manager.IsEmptyDirVolume(DDTrace.VOLUME);
      if !emptyDir {
        return;
      }
      var initHasMount := false;
      var inits := manager.pod.initContainers;
      var i := 0;
      while i < |inits| && inits[i].name != DDTRACE_INIT
        invariant i <= |inits| && forall k | 0 <= k < i :: inits[k].name != DDTRACE_INIT
      {
        i := i + 1;
      }
      assert FirstNamed(inits, ContainerName, DDTRACE_INIT, 0) == i;
      if i < |inits| {
        initHasMount := HasMount(inits[i]);
      }
      if !initHasMount {
        return;
      }
      var containers := RepairContainers(manager.pod.containers);
      manager.pod := manager.pod.(containers := containers);
    }

    method InjectInitContainer(image: string, rule: Rule)
      modifies manager
      ensures manager.pod ==
              old(manager.pod).(initContainers :=
                AddNamed(old(manager.pod).initContainers, ContainerName, DDTrace.InitContainer(rule, image)))
    {
      manager.AddInitContainer(DDTrace.InitContainer(rule, image));
    }

    /** On failure the pod is left half-changed; the caller works on a copy. */
    method InjectSettings(settings: seq<DDTrace.Setting>) returns (ok: bool)
      modifies manager
      ensures ok == DDTrace.InjectConfig(old(manager.pod), settings).Some?
      ensures ok ==> manager.pod == DDTrace.InjectConfig(old(manager.pod), settings).value
    {
      hide DDTrace.SetOnAll, DDTrace.SetEnv;
      for i := 0 to |settings|
        invariant DDTrace.InjectConfig(manager.pod, settings[i..]) == DDTrace.InjectConfig(old(manager.pod), settings)
      {
        assert settings[i..][1..] == settings[i + 1..];
        var containers := SetEnvOnAll(manager.pod.containers, settings[i]);
        if containers.None? {
          return false;
        }
        manager.pod := manager.pod.(containers := containers.value);
        manager.AddVolumeMount(DDTrace.LibraryMount());
      }
      return true;
    }

    method InjectGlobalEnvs(envs: seq<EnvVar>)
      modifies manager
      ensures manager.pod ==
              old(manager.pod).(containers := DDTrace.GlobalEnvsOnAll(old(manager.pod).containers, envs))
    {
      hide DDTrace.GlobalEnv, DDTrace.MergeTags;
      var containers := manager.pod.containers;
      for i := 0 to |envs|
        invariant manager.pod == old(manager.pod)
        invariant |containers| == |old(manager.pod).containers|
        invariant forall k | 0 <= k < |containers| ::
                    && containers[k] == old(manager.pod).containers[k].(env := containers[k].env)
                    && DDTrace.GlobalEnvs(containers[k].env, envs[i..])
                       == DDTrace.GlobalEnvs(old(manager.pod).containers[k].env, envs)
      {
        ghost var before := containers;
        containers := InjectGlobalEnv(containers, envs[i]);
        forall k | 0 <= k < |containers|
          ensures DDTrace.GlobalEnvs(containers[k].env, envs[i + 1..]) == DDTrace.GlobalEnvs(before[k].env, envs[i..])
        {
          assert envs[i..][1..] == envs[i + 1..];
        }
      }
      forall k | 0 <= k < |containers|
        ensures containers[k] == DDTrace.GlobalEnvsOnAll(old(manager.pod).containers, envs)[k]
      {
        assert envs[|envs|..] == [];
        assert DDTrace.GlobalEnvs(containers[k].env, []) == containers[k].env;
      }
      assert containers == DDTrace.GlobalEnvsOnAll(old(manager.pod).containers, envs);
      manager.pod := manager.pod.(containers := containers);
    }

    /** Works on a copy of the pod, so that a refused injection leaves no trace. */
    method Process() returns (selected: bool)
      modifies this, manager
      ensures Outcome(selected, manager.pod) == DDTrace.Process(config, old(requested), old(manager.pod))
    {
      hide DDTrace.InjectConfig, DDTrace.GlobalEnvsOnAll, DDTrace.RepairJava, DDTrace.SettingsOf, SelectRule,
           DDTrace.CopyCommand, HasName;
      requested := EffectiveNamespace(requested, manager.pod);
      var selection := GetMatchingRule();
      if selection.None? {
        return false;
      }
      var rule := selection.value.rule;
      var present := manager.ContainsInitContainer(DDTRACE_INIT);
      if present {
        if rule.language == JAVA {
          RepairJavaAgentEnv();
        }
        return true;
      }
      var settings := DDTrace.SettingsOf(rule.language);
      if settings.None? {
        return true;
      }
      var copy := new PodManager(manager.pod);
      var mutated := new DDTraceResource(config, requested, copy);
      mutated.InjectInitContainer(ImageOf(config, selection.value), rule);
      var ok := mutated.InjectSettings(settings.value);
      if !ok {
        return true;
      }
      copy.AddVolume(DDTrace.LibraryVolume());
      mutated.InjectGlobalEnvs(RuleEnvs(rule, copy.pod.containers));
      manager.pod := copy.pod;
      return true;
    }
  }

  function Outcome(selected: bool, pod: Pod): DDTrace.Outcome {
    DDTrace.Outcome(selected, pod)
  }

  method RepairContainers(containers: seq<Container>) returns (r: seq<Container>)
    ensures |r| == |containers| && forall k | 0 <= k < |containers| :: r[k] == DDTrace.Repaired(containers[k])
  {
    hide DDTrace.SetEnv, DDTrace.HasLibraryMount;
    r := containers;
    for i := 0 to |containers|
      invariant |r| == |containers|
      invariant forall k | 0 <= k < i :: r[k] == DDTrace.Repaired(containers[k])
      invariant forall k | i <= k < |r| :: r[k] == containers[k]
    {
      var mounted := HasMount(r[i]);
      if mounted {
        var env := InjectDDTraceEnv(r[i].env, DDTrace.JavaSetting());
        if env.Some? {
          r := r[i := r[i].(env := env.value)];
        }
      }
    }
  }

  method SetEnvOnAll(containers: seq<Container>, s: DDTrace.Setting) returns (r: Option<seq<Container>>)
    ensures r == DDTrace.SetOnAll(containers, s)
  {
    hide DDTrace.SetEnv;
    var changed := containers;
    for i := 0 to |containers|
      invariant |changed| == |containers|
      invariant forall k | 0 <= k < i ::
                  && DDTrace.SetEnv(containers[k].env, s).Some?
                  && changed[k] == containers[k].(env := DDTrace.SetEnv(containers[k].env, s).value)
      invariant forall k | i <= k < |changed| :: changed[k] == containers[k]
    {
      var env := InjectDDTraceEnv(changed[i].env, s);
      if env.None? {
        return None;
      }
      changed := changed[i := changed[i].(env := env.value)];
    }
    assert changed == DDTrace.SetOnAll(containers, s).value;
    return Some(changed);
  }

  method InjectGlobalEnv(containers: seq<Container>, incoming: EnvVar) returns (r: seq<Container>)
    ensures |r| == |containers|
    ensures forall k | 0 <= k < |r| :: r[k] == containers[k].(env := DDTrace.GlobalEnv(containers[k].env, incoming))
  {
    hide DDTrace.MergeTags, WithEnvVar;
    r := containers;
    if incoming.name == DDTrace.DD_TAGS && (incoming.value == "" || incoming.valueFrom.Some?) {
      return;
    }
    for i := 0 to |containers|
      invariant |r| == |containers|
      invariant forall k | 0 <= k < i :: r[k] == containers[k].(env := DDTrace.GlobalEnv(containers[k].env, incoming))
      invariant forall k | i <= k < |r| :: r[k] == containers[k]
    {
      var env;
      if incoming.name == DDTrace.DD_TAGS {
        env := AddOrMergeDDTagsEnvVar(r[i].env, incoming);
      } else {
        env := AddOrUpdateEnvVar(r[i].env, incoming, Some(KeepExisting));
      }
      r := r[i := r[i].(env := env)];
    }
  }

  // ----- OpenTelemetry -----

  /** The loop that each language runs over the variables of a container. */
  method ValidateEnv(env: seq<EnvVar>, key: string, accepts: string -> bool) returns (r: bool)
    ensures r == OTel.EnvAccepted(env, key, accepts)
  {
    var count := 0;
    for i := 0 to |env|
      invariant 0 <= count <= 1
      invariant count == 0 ==> forall k | 0 <= k < i :: env[k].name != key
      invariant count == 1 ==> exists k | 0 <= k < i :: env[k].name == key
      invariant forall j, k | 0 <= j < k < i :: !(env[j].name == key && env[k].name == key)
      invariant forall k | 0 <= k < i :: env[k].name == key ==> env[k].valueFrom.None? && accepts(env[k].value)
    {
      if env[i].name == key {
        count := count + 1;
        if count > 1 || env[i].valueFrom.Some? || !accepts(env[i].value) {
          return false;
        }
      }
    }
    return true;
  }

  /** otelInitVolumeMount. */
  method OwnVolumeMount(mounts: seq<VolumeMount>) returns (own: Option<VolumeMount>)
    ensures own.Some? ==> exists i | 0 <= i < |mounts| :: OTel.OwnsOnly(mounts, i) && mounts[i] == own.value
    ensures own.None? ==> forall i | 0 <= i < |mounts| :: !OTel.OwnsOnly(mounts, i)
  {
    own := None;
    for i := 0 to |mounts|
      invariant own.None? ==> forall k | 0 <= k < i :: mounts[k].name != OTel.VOLUME
      invariant own.Some? ==> exists j | 0 <= j < i :: OTel.OwnsOnly(mounts[..i], j) && mounts[j] == own.value
    {
      if mounts[i].name == OTel.VOLUME {
        if own.Some? {
          return None;
        }
        own := Some(mounts[i]);
        assert OTel.OwnsOnly(mounts[..i + 1], i);
      } else if own.Some? {
        var j: nat :| j < i && OTel.OwnsOnly(mounts[..i], j) && mounts[j] == own.value;
        assert OTel.OwnsOnly(mounts[..i + 1], j);
      }
    }
    assert mounts[..|mounts|] == mounts;
  }

  method IsMountedOnce(mounts: seq<VolumeMount>, wanted: VolumeMount) returns (r: bool)
    ensures r == OTel.MountedOnce(mounts, wanted)
  {
    var count := 0;
    ghost var first := 0;
    for i := 0 to |mounts|
      invariant count == 0 ==> forall k | 0 <= k < i :: !OTel.Collides(mounts[k], wanted)
      invariant count == 1 ==> 0 <= first < i && mounts[first] == wanted
      invariant count == 1 ==> forall k | 0 <= k < i && k != first :: !OTel.Collides(mounts[k], wanted)
      invariant count > 1 ==> exists j, k | 0 <= j < k < i :: mounts[j] == wanted && mounts[k] == wanted
      invariant count >= 0
    {
      if OTel.Collides(mounts[i], wanted) {
        if mounts[i] != wanted {
          return false;
        }
        first := if count == 0 then i else first;
        count := count + 1;
      }
    }
    r := count == 1;
  }

  method InitContainerCompatible(config: Config, existing: Container, desired: Container) returns (r: bool)
    ensures r == OTel.InitCompatible(config, existing, desired)
  {
    hide OTel.MountedOnce;
    if existing.spec.image != desired.spec.image || existing.spec.command != desired.spec.command
       || existing.spec.args != desired.spec.args || existing.spec.pullPolicy != desired.spec.pullPolicy
       || existing.spec.resources != desired.spec.resources {
      return false;
    }
    if !OTel.SecurityCompatible(config, desired.spec.security, existing.spec.security) {
      return false;
    }
    var own := OwnVolumeMount(desired.mounts);
    if own.None? {
      return false;
    }
    r := IsMountedOnce(existing.mounts, own.value);
  }

  /** The mounts of one application container. */
  method ValidateMounts(mounts: seq<VolumeMount>, mountPath: string) returns (r: bool)
    ensures r == forall m <- mounts :: OTel.MountAccepted(m, mountPath)
  {
    for i := 0 to |mounts|
      invariant forall k | 0 <= k < i :: OTel.MountAccepted(mounts[k], mountPath)
    {
      var mount := mounts[i];
      assert mount in mounts;
      if mount.mountPath == DDTrace.MOUNT_PATH || TrimSuffix(mount.mountPath, "/") == DDTrace.MOUNT_PATH {
        return false;
      }
      var usesName, usesPath := mount.name == OTel.VOLUME, mount.mountPath == mountPath;
      if usesName != usesPath {
        return false;
      }
      if usesName && (mount.subPath != "" || mount.subPathExpr != "") {
        return false;
      }
    }
    return true;
  }

  /** validateCommonInjection. */
  method ValidateCommon(config: Config, image: string, pod: Pod, desired: Container, mountPath: string)
    returns (r: bool)
    ensures r == OTel.CommonAccepted(config, image, pod, desired, mountPath)
  {
    hide OTel.InitCompatible, OTel.MountAccepted, IsBlank;
    if IsBlank(image) || pod.containers == [] {
      return false;
    }
    var inits, volumes, containers := pod.initContainers, pod.volumes, pod.containers;
    for i := 0 to |inits|
      invariant forall k | 0 <= k < i :: inits[k].name != DDTRACE_INIT
      invariant forall k | 0 <= k < i ::
                  inits[k].name == OTEL_INIT ==> OTel.InitCompatible(config, inits[k], desired)
    {
      if inits[i].name == DDTRACE_INIT {
        return false;
      } else if inits[i].name == OTEL_INIT {
        var ok := InitContainerCompatible(config, inits[i], desired);
        if !ok {
          return false;
        }
      }
    }
    for i := 0 to |volumes|
      invariant forall k | 0 <= k < i :: volumes[k].name == OTel.VOLUME ==> volumes[k].emptyDir
    {
      if volumes[i].name == OTel.VOLUME && !volumes[i].emptyDir {
        return false;
      }
    }
    for i := 0 to |containers|
      invariant forall k | 0 <= k < i :: forall m <- containers[k].mounts :: OTel.MountAccepted(m, mountPath)
    {
      var ok := ValidateMounts(containers[i].mounts, mountPath);
      if !ok {
        return false;
      }
    }
    return true;
  }

  /** injectJavaConfig on one container. */
  method JavaEnv(env: seq<EnvVar>) returns (r: seq<EnvVar>)
    ensures r == OTel.SetEnv(env, OTel.LibraryOf(JAVA).value)
  {
    var i := EnvIndex(env, OTel.JAVA_KEY);
    r := env;
    if i == |env| {
      r := AddOrUpdateEnvVar(env, EnvVar(OTel.JAVA_KEY, OTel.JAVA_OPTION, None), Some(KeepExisting));
    } else {
      var present := ContainsPart(Fields(env[i].value), OTel.JAVA_OPTION);
      if !present {
        r := env[i := env[i].(value :=
               if env[i].value == "" then OTel.JAVA_OPTION else env[i].value + " " + OTel.JAVA_OPTION)];
      }
    }
  }

  /** injectPythonConfig on one container. */
  method PythonEnv(env: seq<EnvVar>) returns (r: seq<EnvVar>)
    ensures r == OTel.SetEnv(env, OTel.LibraryOf(PYTHON).value)
  {
    PythonIsALibrary();
    var i := EnvIndex(env, OTel.PYTHON_KEY);
    r := env;
    var injected := false;
    if i < |env| {
      injected := IsOTelPythonPathInjected(env[i].value);
    }
    var pythonPath := OTel.PYTHON_PREFIX + ":" + OTel.PYTHON_MOUNT;
    if !injected {
      if i == |env| {
        r := AddOrUpdateEnvVar(env, EnvVar(OTel.PYTHON_KEY, pythonPath, None), Some(KeepExisting));
      } else if env[i].value == "" {
        r := env[i := env[i].(value := pythonPath)];
      } else {
        r := env[i := env[i].(value := OTel.PYTHON_PREFIX + ":" + env[i].value + ":" + OTel.PYTHON_MOUNT)];
      }
    }
  }

  lemma PythonIsALibrary()
    ensures PYTHON != JAVA && NODEJS != JAVA && NODEJS != PYTHON
  {
  }

  /** injectNodeJSConfig on one container. */
  method NodeEnv(env: seq<EnvVar>) returns (r: seq<EnvVar>)
    ensures r == OTel.SetEnv(env, OTel.LibraryOf(NODEJS).value)
  {
    PythonIsALibrary();
    var i := EnvIndex(env, OTel.NODE_KEY);
    r := env;
    if i == |env| {
      var added := EnvVar(OTel.NODE_KEY, " " + OTel.REQUIRE + " " + OTel.NODE_PATH, None);
      r := AddOrUpdateEnvVar(env, added, Some(KeepExisting));
    } else {
      var count := CountNodeJSRequireOptions(env[i].value);
      if count != 1 {
        r := env[i := env[i].(value := env[i].value + " " + OTel.REQUIRE + " " + OTel.NODE_PATH)];
      }
    }
  }

  class OTelResource {
    var requested: string
    const manager: PodManager
    const config: Config

    constructor (config: Config, requested: string, manager: PodManager)
      ensures this.config == config && this.requested == requested && this.manager == manager
    {
      this.config, this.requested, this.manager := config, requested, manager;
    }

    method Validate(image: string, desired: Container, library: OTel.Library) returns (r: bool)
      ensures r == OTel.Accepted(config, image, manager.pod, desired, library)
    {
      hide OTel.CommonAccepted, OTel.EnvAccepted;
      var common := ValidateCommon(config, image, manager.pod, desired, library.mountPath);
      if !common {
        return false;
      }
      var containers := manager.pod.containers;
      for i := 0 to |containers|
        invariant forall k | 0 <= k < i :: OTel.EnvAccepted(containers[k].env, library.key, library.accepts)
      {
        var ok := ValidateEnv(containers[i].env, library.key, library.accepts);
        if !ok {
          return false;
        }
      }
      return true;
    }

    method InjectLibrary(language: string)
      requires OTel.LibraryOf(language).Some?
      modifies manager
      ensures manager.pod ==
              old(manager.pod).(containers :=
                OTel.InstrumentedAll(old(manager.pod).containers, OTel.LibraryOf(language).value))
    {
      hide OTel.SetEnv, WithMount;
      var library := OTel.LibraryOf(language).value;
      var containers := manager.pod.containers;
      for i := 0 to |containers|
        invariant manager.pod == old(manager.pod)
        invariant |containers| == |old(manager.pod).containers|
        invariant forall k | 0 <= k < i :: containers[k] == OTel.Instrumented(old(manager.pod).containers[k], library)
        invariant forall k | i <= k < |containers| :: containers[k] == old(manager.pod).containers[k]
      {
        var env;
        if language == JAVA {
          env := JavaEnv(containers[i].env);
        } else if language == PYTHON {
          env := PythonEnv(containers[i].env);
        } else {
          assert language == NODEJS;
          env := NodeEnv(containers[i].env);
        }
        var c := containers[i].(env := env);
        var mounts := AddVolumeMountToContainer(c, OTel.LibraryMount(library.mountPath));
        MountsOnly(c, OTel.LibraryMount(library.mountPath));
        containers := containers[i := c.(mounts := mounts)];
      }
      assert containers == OTel.InstrumentedAll(old(manager.pod).containers, library);
      manager.pod := manager.pod.(containers := containers);
    }

    method InjectEnvs(envs: seq<EnvVar>)
      modifies manager
      ensures manager.pod == old(manager.pod).(containers := OTel.EnvsOnAll(old(manager.pod).containers, envs))
    {
      hide WithEnvVars;
      var containers := manager.pod.containers;
      for i := 0 to |containers|
        invariant manager.pod == old(manager.pod)
        invariant |containers| == |old(manager.pod).containers|
        invariant forall k | 0 <= k < i :: containers[k] == OTel.EnvsOnAll(old(manager.pod).containers, envs)[k]
        invariant forall k | i <= k < |containers| :: containers[k] == old(manager.pod).containers[k]
      {
        var env := AddOrUpdateEnvVars(containers[i].env, envs, Some(KeepExisting));
        containers := containers[i := containers[i].(env := env)];
      }
      assert containers == OTel.EnvsOnAll(old(manager.pod).containers, envs);
      manager.pod := manager.pod.(containers := containers);
    }

    method Process()
      modifies this, manager
      ensures manager.pod == OTel.Process(config, old(requested), old(manager.pod))
    {
      hide OTel.LibraryOf, OTel.Accepted, OTel.LacksNonRootUser, OTel.InstrumentedAll, OTel.EnvsOnAll, SelectRule;
      requested := EffectiveNamespace(requested, manager.pod);
      if !IsEnabled(manager.pod.annotations, OTel.ENABLED_KEY) {
        return;
      }
      var selection := SelectMatching(config.otel(requested, manager.pod.identity.labels),
                                      manager.pod.annotations, OTel.VersionKey);
      if selection.None? {
        return;
      }
      var rule := selection.value.rule;
      var library := OTel.LibraryOf(rule.language);
      if library.None? {
        return;
      }
      var desired := OTel.InitContainer(rule, ImageOf(config, selection.value), library.value, manager.pod.containers);
      if OTel.LacksNonRootUser(manager.pod.identity.security, desired.spec.security) {
        return;
      }
      var ok := Validate(rule.image, desired, library.value);
      if !ok {
        return;
      }
      manager.AddInitContainer(desired);
      manager.AddVolume(OTel.LibraryVolume());
      InjectLibrary(rule.language);
      InjectEnvs(RuleEnvs(rule, manager.pod.containers));
    }
  }

  lemma MountsOnly(c: Container, mount: VolumeMount)
    ensures WithMount(c, mount) == c.(mounts := WithMount(c, mount).mounts)
  {
  }

  /** DDTrace has priority, and OpenTelemetry is not tried once a DDTrace rule has matched. */
  method InjectTracingToPod(config: Config, requested: string, manager: PodManager) returns (changed: bool)
    modifies manager
    ensures manager.pod == Tracing.InjectTracing(config, requested, old(manager.pod))
    ensures changed == (manager.pod != old(manager.pod))
  {
    hide DDTrace.Process, OTel.Process;
    var before := manager.pod;
    var ddtrace := new DDTraceResource(config, requested, manager);
    var present := manager.ContainsInitContainer(DDTRACE_INIT);
    var selected := ddtrace.Process();
    if !present && !selected {
      var otel := new OTelResource(config, requested, manager);
      otel.Process();
    }
    changed := manager.pod != before;
  }
}
