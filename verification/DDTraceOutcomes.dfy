/**
 What a pod looks like after DDTrace injection or repair, told in the variables and paths of each
 language: the application's own values stay, and the library is added to them.
 */
module DDTraceOutcomes {
  import opened Options
  import opened Text
  import opened Words
  import opened Pods
  import opened PodManagers
  import opened TracingRules
  import opened DDTrace
  import opened DDTraceProperties

  // ----- values -----

  /** An option behind what was there, as one more field. */
  predicate OptionBehind(was: string, now: string, option: string) {
    now == was + " " + option && Fields(now) == Fields(was) + [option]
  }

  predicate HasJavaAgent(value: string) {
    exists field <- Fields(value) ::
      field == "-javaagent:/datadog-lib/dd-java-agent.jar" || "-javaagent:/datadog-lib/dd-java-agent.jar" + "=" <= field
  }

  predicate JavaAdded(was: string, now: string) {
    if HasJavaAgent(was) then now == was else OptionBehind(was, now, "-javaagent:/datadog-lib/dd-java-agent.jar")
  }

  predicate NodeAdded(was: string, now: string) {
    if "--require=/datadog-lib" + "/node_modules/dd-trace/init" in Fields(was) then now == was
    else OptionBehind(was, now, "--require=/datadog-lib" + "/node_modules/dd-trace/init")
  }

  /** In front of the other directories. */
  predicate PythonAdded(was: string, now: string) {
    if "/datadog-lib/" in Split(was, ':') then now == was
    else Split(now, ':') == ["/datadog-lib/"] + (if was == "" then [] else Split(was, ':'))
  }

  /** Behind the other directories, or behind the default one. */
  predicate ScanDirAdded(was: string, now: string) {
    if "/datadog-lib" in Split(was, ':') then now == was
    else Split(now, ':') == (if was == "" then ["/usr/local/etc/php/conf.d"] else Split(was, ':')) + ["/datadog-lib"]
  }

  predicate LoaderSet(was: string, now: string) {
    now == if was == "" then "/datadog-lib" else was
  }

  lemma JavaAgentIsAdded(v: string)
    ensures JavaAdded(v, AppendJavaAgent(v))
  {
    AgentIsAWord();
    FieldsOfAppended(v, JAVA_AGENT);
  }

  lemma NodeOptionIsAdded(v: string)
    ensures NodeAdded(v, NodeOptions(v))
  {
    hide IsWord;
    NodeOptionIsAWord();
    FieldsOfAppended(v, NODE_OPTION);
  }

  lemma PathsAreAdded(v: string)
    ensures PythonAdded(v, PythonPath(v)) && ScanDirAdded(v, PhpScanDir(v)) && LoaderSet(v, PhpLoaderPath(v))
  {
    hide Split;
    PathsArePlain();
    IniIsPlain();
    PathJoins(PYTHON_VALUE, v);
    PathJoins(MOUNT_PATH, v);
    SplitOfPlain(PHP_DEFAULT_INI, ':');
    PathJoins(MOUNT_PATH, PHP_DEFAULT_INI);
  }

  lemma PathJoins(path: string, v: string)
    requires ':' !in path
    ensures Split(path, ':') == [path]
    ensures Split(path + ":" + v, ':') == [path] + Split(v, ':') && Split(v + ":" + path, ':') == Split(v, ':') + [path]
  {
    SplitOfPlain(path, ':');
    SplitOfConcat(path, v, ':');
    SplitOfConcat(v, path, ':');
  }

  lemma IniIsPlain()
    ensures ':' !in PHP_DEFAULT_INI
  {
  }

  // ----- variables -----

  /** The value of the first variable of the name; a missing one counts as empty. */
  function ValueOf(env: seq<EnvVar>, name: string): string {
    match Lookup(env, name)
    case None => ""
    case Some(v) => v.value
  }

  /** The variable holds its own value, made of the old one. */
  ghost predicate Became(was: seq<EnvVar>, now: seq<EnvVar>, name: string, added: (string, string) -> bool) {
    && Lookup(now, name).Some? && Lookup(now, name).value.valueFrom.None?
    && added(ValueOf(was, name), ValueOf(now, name))
  }

  /** What each language asks of the environment of a container. */
  ghost predicate Instrumented(language: string, was: seq<EnvVar>, now: seq<EnvVar>) {
    match language
    case "java" => Became(was, now, "JAVA_TOOL_OPTIONS", JavaAdded)
    case "nodejs" => Became(was, now, "NODE_OPTIONS", NodeAdded)
    case "python" => Became(was, now, "PYTHONPATH", PythonAdded)
    case "php" =>
      Became(was, now, "DD_LOADER_PACKAGE_PATH", LoaderSet) && Became(was, now, "PHP_INI_SCAN_DIR", ScanDirAdded)
    case _ => false
  }

  function KeysOf(language: string): seq<string> {
    match language
    case "java" => ["JAVA_TOOL_OPTIONS"]
    case "nodejs" => ["NODE_OPTIONS"]
    case "python" => ["PYTHONPATH"]
    case "php" => ["DD_LOADER_PACKAGE_PATH", "PHP_INI_SCAN_DIR"]
    case _ => []
  }

  /** Rewriting a setting makes of the old value what the setting's function says. */
  predicate Rewritten(was: seq<EnvVar>, now: seq<EnvVar>, s: Setting) {
    && Lookup(now, s.key).Some? && Lookup(now, s.key).value.valueFrom.None?
    && ValueOf(now, s.key) == s.rewrite(ValueOf(was, s.key))
  }

  lemma SetEnvRewrites(env: seq<EnvVar>, s: Setting)
    requires SetEnv(env, s).Some?
    ensures Rewritten(env, SetEnv(env, s).value, s)
    ensures forall name :: name != s.key ==> Lookup(SetEnv(env, s).value, name) == Lookup(env, name)
  {
    var i := FirstNamed(env, EnvName, s.key, 0);
    var r := SetEnv(env, s).value;
    assert r[i].name == s.key && forall k | 0 <= k < i :: r[k] == env[k];
    LookupAt(r, i, s.key);
    forall name | name != s.key ensures Lookup(r, name) == Lookup(env, name) {
      if Lookup(env, name).Some? {
        SetEnvKeepsOthers(env, s, name);
      } else {
        LookupAbsent(env, name);
        LookupAbsent(r, name);
      }
    }
  }

  /** Other variables of the container are what they were. */
  ghost predicate OthersStay(was: seq<EnvVar>, now: seq<EnvVar>, settings: seq<Setting>) {
    forall name :: (forall s <- settings :: s.key != name) ==> Lookup(now, name) == Lookup(was, name)
  }

  /** One container after the settings: rewritten variables, other variables, and one more mount. */
  ghost predicate Configured(was: Container, now: Container, settings: seq<Setting>) {
    && now == was.(env := now.env, mounts := now.mounts)
    && (forall s <- settings :: Rewritten(was.env, now.env, s))
    && OthersStay(was.env, now.env, settings)
    && now.mounts == if settings == [] then was.mounts else AddNamed(was.mounts, MountName, LibraryMount())
  }

  lemma {:induction false} ConfigConfigures(pod: Pod, settings: seq<Setting>, i: nat)
    requires WellChosen(settings) && InjectConfig(pod, settings).Some? && i < |pod.containers|
    ensures |InjectConfig(pod, settings).value.containers| == |pod.containers|
    ensures Configured(pod.containers[i], InjectConfig(pod, settings).value.containers[i], settings)
    decreases |settings|
  {
    hide Idempotent, SetEnv, Rewritten, Lookup, AddNamed, OthersStay;
    if settings != [] {
      var s, rest := settings[0], settings[1..];
      var c := pod.containers[i];
      var next := pod.(containers := WithMountOnAll(SetOnAll(pod.containers, s).value, LibraryMount()));
      assert SetEnv(c.env, s).Some?;
      SetEnvRewrites(c.env, s);
      assert next.containers[i].env == SetEnv(c.env, s).value;
      RestIsWellChosen(settings);
      ConfigConfigures(next, rest, i);
      ConfiguredCons(c, next.containers[i], InjectConfig(pod, settings).value.containers[i], settings);
    } else {
      NothingChanges(pod.containers[i].env);
    }
  }

  lemma NothingChanges(env: seq<EnvVar>)
    ensures OthersStay(env, env, [])
  {
  }

  lemma RestIsWellChosen(settings: seq<Setting>)
    requires WellChosen(settings) && settings != []
    ensures WellChosen(settings[1..]) && forall s <- settings[1..] :: s.key != settings[0].key
  {
    hide Idempotent;
    var rest := settings[1..];
    forall s | s in rest ensures s in settings && s.key != settings[0].key {
      var i :| 0 <= i < |rest| && rest[i] == s;
      assert settings[i + 1] == s;
    }
  }

  lemma ConfiguredCons(was: Container, next: Container, now: Container, settings: seq<Setting>)
    requires settings != [] && forall s <- settings[1..] :: s.key != settings[0].key
    requires Rewritten(was.env, next.env, settings[0])
    requires forall name :: name != settings[0].key ==> Lookup(next.env, name) == Lookup(was.env, name)
    requires next == was.(env := next.env, mounts := AddNamed(was.mounts, MountName, LibraryMount()))
    requires Configured(next, now, settings[1..])
    ensures Configured(was, now, settings)
  {
    hide Lookup;
    var rest := settings[1..];
    assert settings == [settings[0]] + rest;
    AddedOnce(was.mounts);
    forall s | s in settings ensures Rewritten(was.env, now.env, s) {
      assert s == settings[0] || s in rest;
    }
    forall name | forall s <- settings :: s.key != name ensures Lookup(now.env, name) == Lookup(was.env, name) {
      assert settings[0] in settings;
      assert forall s <- rest :: s in settings;
    }
  }

  lemma AddedOnce(mounts: seq<VolumeMount>)
    ensures var once := AddNamed(mounts, MountName, LibraryMount());
            AddNamed(once, MountName, LibraryMount()) == once
  {
    var once := AddNamed(mounts, MountName, LibraryMount());
    if !HasName(mounts, MountName, VOLUME) {
      assert MountName(once[|mounts|]) == VOLUME;
    }
  }

  // ----- the variables of a rule -----

  lemma LookupCons(v: EnvVar, rest: seq<EnvVar>, name: string)
    ensures Lookup([v] + rest, name) == if v.name == name then Some(v) else Lookup(rest, name)
  {
    var env := [v] + rest;
    if v.name != name {
      if Lookup(rest, name).Some? {
        LookupAt(env, FirstNamed(rest, EnvName, name, 0) + 1, name);
      } else {
        LookupAbsent(rest, name);
        LookupAbsent(env, name);
      }
    }
  }

  lemma GlobalEnvLooksUp(env: seq<EnvVar>, v: EnvVar, name: string)
    requires name != DD_TAGS
    ensures Lookup(GlobalEnv(env, v), name) ==
            if Lookup(env, name).Some? || v.name != name then Lookup(env, name) else Some(v)
  {
    hide MergeTags;
    if v.name == DD_TAGS {
      MergeLooksUp(env, v, name);
    } else {
      KeptLooksUp(env, v, name);
    }
  }

  lemma KeptLooksUp(env: seq<EnvVar>, v: EnvVar, name: string)
    ensures Lookup(WithEnvVar(env, v, Some(KeepExisting)), name) ==
            if Lookup(env, name).Some? || v.name != name then Lookup(env, name) else Some(v)
  {
    var i := FirstNamed(env, EnvName, v.name, 0);
    if i < |env| {
      assert env[i := env[i]] == env;
    } else if Lookup(env, name).Some? {
      PrefixKeepsLookup(env, env + [v], name);
    } else {
      LookupAbsent(env, name);
      if v.name == name {
        LookupAt(env + [v], |env|, name);
      } else {
        LookupAbsent(env + [v], name);
      }
    }
  }

  lemma MergeLooksUp(env: seq<EnvVar>, v: EnvVar, name: string)
    requires name != DD_TAGS && v.name == DD_TAGS
    ensures Lookup(MergeTags(env, v), name) == Lookup(env, name)
  {
    hide Pairs.Append;
    if Lookup(env, name).Some? {
      MergeKeepsOthers(env, v, name);
    } else {
      LookupAbsent(env, name);
      LookupAbsent(MergeTags(env, v), name);
    }
  }

  /** Every variable of the rule arrives with the rule's value, unless the container has one of its name. */
  lemma {:induction false} RuleVariablesArrive(env: seq<EnvVar>, incoming: seq<EnvVar>, name: string)
    requires name != "DD_TAGS"
    ensures Lookup(GlobalEnvs(env, incoming), name) ==
            if Lookup(env, name).Some? then Lookup(env, name) else Lookup(incoming, name)
    decreases |incoming|
  {
    hide GlobalEnv, Lookup;
    if incoming == [] {
      NothingToLookUp(name);
    } else {
      assert incoming == [incoming[0]] + incoming[1..];
      LookupCons(incoming[0], incoming[1..], name);
      GlobalEnvLooksUp(env, incoming[0], name);
      RuleVariablesArrive(GlobalEnv(env, incoming[0]), incoming[1..], name);
    }
  }

  lemma NothingToLookUp(name: string)
    ensures Lookup([], name) == None
  {
  }

  // ----- an injected pod -----

  function TheMount(): VolumeMount {
    VolumeMount("datakit-auto-instrument", "/datadog-lib", "", "", "")
  }

  function TheVolume(): Volume {
    Volume("datakit-auto-instrument", true, "")
  }

  /** The variables of a rule for this pod. */
  function VariablesOf(rule: Rule, pod: Pod): seq<EnvVar> {
    if pod.containers == [] then rule.envs("", "")
    else rule.envs(pod.containers[0].name, pod.containers[0].spec.resources)
  }

  /** The language's variables are made of the old ones, the rule's arrive, and no other but the tags changes. */
  ghost predicate ContainerOutcome(language: string, incoming: seq<EnvVar>, was: Container, now: Container) {
    && now == was.(env := now.env, mounts := now.mounts)
    && now.mounts == AddNamed(was.mounts, MountName, TheMount())
    && Instrumented(language, was.env, now.env)
    && (forall name | name !in KeysOf(language) && name != "DD_TAGS" ::
          Lookup(now.env, name) ==
          if Lookup(was.env, name).Some? then Lookup(was.env, name) else Lookup(incoming, name))
  }

  lemma SettingsHaveKeys(language: string)
    requires SettingsOf(language).Some?
    ensures language in {"java", "nodejs", "python", "php"}
    ensures var settings := SettingsOf(language).value;
            settings != [] && forall name :: name in KeysOf(language) <==> exists s <- settings :: s.key == name
  {
    var settings := SettingsOf(language).value;
    assert settings[0] in settings;
    if language == PHP {
      assert settings[1] in settings;
    }
  }

  lemma RewrittenIsInstrumented(language: string, was: seq<EnvVar>, now: seq<EnvVar>)
    requires SettingsOf(language).Some? && forall s <- SettingsOf(language).value :: Rewritten(was, now, s)
    ensures Instrumented(language, was, now)
  {
    hide Lookup, AppendJavaAgent, PythonPath, PhpScanDir, PhpLoaderPath, NodeOptions, JavaAdded, NodeAdded, PythonAdded,
         ScanDirAdded, LoaderSet;
    var settings := SettingsOf(language).value;
    assert settings[0] in settings;
    var v := ValueOf(was, settings[0].key);
    JavaAgentIsAdded(v);
    NodeOptionIsAdded(v);
    PathsAreAdded(v);
    if language == PHP {
      assert settings[1] in settings;
      PathsAreAdded(ValueOf(was, settings[1].key));
    }
  }

  lemma InstrumentedStays(language: string, was: seq<EnvVar>, now: seq<EnvVar>, later: seq<EnvVar>)
    requires Instrumented(language, was, now)
    requires forall name <- KeysOf(language) :: Lookup(later, name) == Lookup(now, name)
    ensures Instrumented(language, was, later)
  {
    hide Lookup;
  }

  lemma KeysAreNoTags(language: string)
    ensures "DD_TAGS" !in KeysOf(language)
  {
    assert forall key <- KeysOf(language) :: |key| > 8;
  }

  lemma ContainerIsOutcome(language: string, settings: seq<Setting>, incoming: seq<EnvVar>, was: Container,
        mid: Container)
    requires SettingsOf(language) == Some(settings) && Configured(was, mid, settings)
    ensures ContainerOutcome(language, incoming, was, mid.(env := GlobalEnvs(mid.env, incoming)))
  {
    hide Lookup, Rewritten, Instrumented, AddNamed, KeysOf, GlobalEnvs;
    var env := GlobalEnvs(mid.env, incoming);
    SettingsHaveKeys(language);
    KeysAreNoTags(language);
    forall name | name != "DD_TAGS"
      ensures Lookup(env, name) == if Lookup(mid.env, name).Some? then Lookup(mid.env, name) else Lookup(incoming, name)
    {
      RuleVariablesArrive(mid.env, incoming, name);
    }
    forall name | name in KeysOf(language) ensures Lookup(env, name) == Lookup(mid.env, name) {
      var s :| s in settings && s.key == name;
      assert Rewritten(was.env, mid.env, s);
      RewrittenIsThere(was.env, mid.env, s);
    }
    RewrittenIsInstrumented(language, was.env, mid.env);
    InstrumentedStays(language, was.env, mid.env, env);
  }

  lemma RewrittenIsThere(was: seq<EnvVar>, now: seq<EnvVar>, s: Setting)
    requires Rewritten(was, now, s)
    ensures Lookup(now, s.key).Some?
  {
  }

  /** The init container that copies the library out of its image. */
  predicate Copies(rule: Rule, image: string, c: Container) {
    && c.name == "datakit-lib-init" && c.spec.image == image && c.mounts == [TheMount()] && c.env == []
    && c.spec.pullPolicy == rule.pullPolicy && c.spec.resources == rule.resources && c.spec.args == []
    && c.spec.security == None && c.spec.other == ""
    && (rule.language != "php" ==> c.spec.command == ["sh", "copy-lib.sh", "/datadog-lib"])
    && (rule.language == "php" ==>
          var flavor := if rule.phpLoaderFlavor == "linux-musl" then "linux-musl" else "linux-gnu";
          c.spec.command == ["sh", "-c",
            "/datadog-init/copy-lib.sh " + "/datadog-lib" + " && cp " + "/datadog-lib" + "/" + flavor + "/loader/"
            + "dd_library_loader.ini" + " " + "/datadog-lib" + "/" + "dd_library_loader.ini"])
  }

  lemma InitContainerCopies(rule: Rule, image: string)
    ensures Copies(rule, image, InitContainer(rule, image))
  {
  }

  /** All that an injection changes in a pod. */
  ghost predicate PodOutcome(rule: Rule, image: string, was: Pod, now: Pod) {
    && now == was.(initContainers := now.initContainers, volumes := now.volumes, containers := now.containers)
    && |now.initContainers| == |was.initContainers| + 1
    && now.initContainers[..|was.initContainers|] == was.initContainers
    && Copies(rule, image, now.initContainers[|was.initContainers|])
    && now.volumes == AddNamed(was.volumes, VolumeName, TheVolume())
    && |now.containers| == |was.containers|
    && (forall i | 0 <= i < |was.containers| ::
          ContainerOutcome(rule.language, VariablesOf(rule, was), was.containers[i], now.containers[i]))
  }

  lemma InjectionOutcome(config: Config, pod: Pod, selection: Selection)
    requires !HasInitContainer(pod, "datakit-lib-init") && SettingsOf(selection.rule.language).Some?
    requires Inject(config, pod, selection, SettingsOf(selection.rule.language).value).Some?
    ensures PodOutcome(selection.rule, ImageOf(config, selection), pod,
                       Inject(config, pod, selection, SettingsOf(selection.rule.language).value).value)
  {
    hide SettingsOf, ContainerOutcome, Configured, WellChosen, AddNamed, GlobalEnvs, Copies, InitContainer;
    var rule, settings := selection.rule, SettingsOf(selection.rule.language).value;
    var c := InitContainer(rule, ImageOf(config, selection));
    InitContainerCopies(rule, ImageOf(config, selection));
    AddedInitContainer(pod, rule, ImageOf(config, selection));
    var started := pod.(initContainers := AddNamed(pod.initContainers, ContainerName, c));
    SettingsAreWellChosen(rule.language);
    ConfigTouchesContainersOnly(started, settings);
    var configured := InjectConfig(started, settings).value;
    NoContainers(started, settings);
    forall i | 0 <= i < |pod.containers|
      ensures |configured.containers| == |pod.containers|
      ensures Configured(pod.containers[i], configured.containers[i], settings)
    {
      ConfigConfigures(started, settings, i);
    }
    SameVariables(rule, pod, configured, settings);
    forall i | 0 <= i < |pod.containers|
      ensures ContainerOutcome(rule.language, VariablesOf(rule, pod), pod.containers[i],
                configured.containers[i].(env := GlobalEnvs(configured.containers[i].env, VariablesOf(rule, pod))))
    {
      ContainerIsOutcome(rule.language, settings, VariablesOf(rule, pod), pod.containers[i], configured.containers[i]);
    }
  }

  lemma {:induction false} NoContainers(pod: Pod, settings: seq<Setting>)
    requires InjectConfig(pod, settings).Some?
    ensures |InjectConfig(pod, settings).value.containers| == |pod.containers|
    decreases |settings|
  {
    hide SetEnv;
    if settings != [] {
      NoContainers(
        pod.(containers := WithMountOnAll(SetOnAll(pod.containers, settings[0]).value, LibraryMount())), settings[1..]);
    }
  }

  lemma AddedInitContainer(pod: Pod, rule: Rule, image: string)
    requires !HasInitContainer(pod, "datakit-lib-init")
    ensures AddNamed(pod.initContainers, ContainerName, InitContainer(rule, image)) ==
            pod.initContainers + [InitContainer(rule, image)]
  {
  }

  lemma SameVariables(rule: Rule, pod: Pod, configured: Pod, settings: seq<Setting>)
    requires |configured.containers| == |pod.containers|
    requires pod.containers != [] ==> Configured(pod.containers[0], configured.containers[0], settings)
    ensures RuleEnvs(rule, configured.containers) == VariablesOf(rule, pod)
  {
    hide Rewritten, OthersStay;
  }

  /** A pod that had nothing of that name gets the mount everywhere and the volume as an empty directory. */
  lemma FreshInjectionMounts(rule: Rule, image: string, was: Pod, now: Pod)
    requires PodOutcome(rule, image, was, now) && !HasName(was.volumes, VolumeName, "datakit-auto-instrument")
    requires forall c <- was.containers :: !HasName(c.mounts, MountName, "datakit-auto-instrument")
    ensures now.volumes == was.volumes + [TheVolume()]
    ensures forall i | 0 <= i < |now.containers| ::
              now.containers[i].mounts == was.containers[i].mounts + [TheMount()]
  {
    hide Instrumented, Copies;
    forall i | 0 <= i < |now.containers| ensures now.containers[i].mounts == was.containers[i].mounts + [TheMount()] {
      assert was.containers[i] in was.containers;
      assert ContainerOutcome(rule.language, VariablesOf(rule, was), was.containers[i], now.containers[i]);
    }
  }

  // ----- repair -----

  /** The container has the library where it belongs. */
  predicate MountsLibrary(c: Container) {
    exists m <- c.mounts :: m.name == "datakit-auto-instrument" && m.mountPath == "/datadog-lib"
  }

  /** The first volume and the first init container of the injection are as they were injected. */
  predicate IsRepairable(pod: Pod) {
    && (exists i | 0 <= i < |pod.volumes| ::
          && pod.volumes[i].name == "datakit-auto-instrument" && pod.volumes[i].emptyDir
          && forall k | 0 <= k < i :: pod.volumes[k].name != "datakit-auto-instrument")
    && (exists i | 0 <= i < |pod.initContainers| ::
          && pod.initContainers[i].name == "datakit-lib-init" && MountsLibrary(pod.initContainers[i])
          && forall k | 0 <= k < i :: pod.initContainers[k].name != "datakit-lib-init")
  }

  lemma RepairableIff(pod: Pod)
    ensures CanRepair(pod) <==> IsRepairable(pod)
  {
    LibraryMountIff(pod);
    var i := FirstNamed(pod.initContainers, ContainerName, DDTRACE_INIT, 0);
    var v := FirstNamed(pod.volumes, VolumeName, VOLUME, 0);
    assert forall k | 0 <= k < i :: ContainerName(pod.initContainers[k]) == pod.initContainers[k].name;
    assert forall k | 0 <= k < v :: VolumeName(pod.volumes[k]) == pod.volumes[k].name;
  }

  lemma LibraryMountIff(pod: Pod)
    ensures forall c: Container :: HasLibraryMount(c) <==> MountsLibrary(c)
  {
    forall c: Container ensures HasLibraryMount(c) <==> MountsLibrary(c) {
      if HasLibraryMount(c) {
        var i :| 0 <= i < |c.mounts| && c.mounts[i].name == VOLUME && c.mounts[i].mountPath == MOUNT_PATH;
        assert c.mounts[i] in c.mounts;
      }
    }
  }

  /** The variable is there and refers to a value elsewhere. */
  predicate RefersElsewhere(env: seq<EnvVar>, name: string) {
    Lookup(env, name).Some? && Lookup(env, name).value.valueFrom.Some?
  }

  /**
   A repair puts the agent behind the application's own options, in every container that mounts the
   library and holds them itself, and touches nothing else; a pod that is not as it was injected stays.
   */
  lemma RepairOutcome(pod: Pod)
    ensures var r := RepairJava(pod);
            && r == pod.(containers := r.containers) && |r.containers| == |pod.containers|
            && forall i | 0 <= i < |pod.containers| ::
                 var was, now := pod.containers[i], r.containers[i];
                 if IsRepairable(pod) && MountsLibrary(was) && !RefersElsewhere(was.env, "JAVA_TOOL_OPTIONS")
                 then now == was.(env := now.env) && Became(was.env, now.env, "JAVA_TOOL_OPTIONS", JavaAdded)
                      && forall name :: name != "JAVA_TOOL_OPTIONS" ==> Lookup(now.env, name) == Lookup(was.env, name)
                 else now == was
  {
    hide IsRepairable, CanRepair, HasLibraryMount, MountsLibrary, Lookup, AppendJavaAgent, JavaAdded, SetEnv;
    RepairableIff(pod);
    LibraryMountIff(pod);
    forall i | 0 <= i < |pod.containers| && CanRepair(pod)
      ensures RepairJava(pod).containers[i] == Repaired(pod.containers[i])
    {
    }
    forall c: Container
      ensures RefersElsewhere(c.env, "JAVA_TOOL_OPTIONS") <==> SetEnv(c.env, JavaSetting()).None?
      ensures SetEnv(c.env, JavaSetting()).Some? ==>
                Rewritten(c.env, SetEnv(c.env, JavaSetting()).value, JavaSetting())
                && forall name :: name != "JAVA_TOOL_OPTIONS" ==>
                                    Lookup(SetEnv(c.env, JavaSetting()).value, name) == Lookup(c.env, name)
    {
      SetEnvRefusesReferences(c.env, JavaSetting());
      if SetEnv(c.env, JavaSetting()).Some? {
        SetEnvRewrites(c.env, JavaSetting());
      }
    }
    forall v: string ensures JavaAdded(v, AppendJavaAgent(v)) {
      JavaAgentIsAdded(v);
    }
  }
}
