/** What DDTrace injection promises: a second run finds everything in place. */
module DDTraceProperties {
  import opened Options
  import opened Text
  import opened Words
  import opened Pods
  import opened PodManagers
  import opened TracingRules
  import opened DDTrace

  // ----- settings that are already made -----

  ghost predicate Idempotent(f: string -> string) {
    forall v :: f(f(v)) == f(v)
  }

  /** The variable is there and rewriting it again would change nothing. */
  predicate Settled(env: seq<EnvVar>, s: Setting) {
    match Lookup(env, s.key)
    case None => false
    case Some(v) => v.valueFrom.None? && s.rewrite(v.value) == v.value
  }

  lemma JavaAgentIsIdempotent(v: string)
    ensures AppendJavaAgent(AppendJavaAgent(v)) == AppendJavaAgent(v)
  {
    AgentIsAWord();
    FieldsOfAppended(v, JAVA_AGENT);
    var appended := v + " " + JAVA_AGENT;
    assert Fields(appended)[|Fields(v)|] == JAVA_AGENT;
    assert JAVA_AGENT in Fields(appended);
  }

  lemma AgentIsAWord()
    ensures IsWord(JAVA_AGENT)
  {
    hide IsWord;
    VisibleIsWord(JAVA_AGENT, JAVA_AGENT);
  }

  lemma NodeOptionIsAWord()
    ensures IsWord(NODE_OPTION)
  {
    hide IsWord;
    VisibleIsWord("--require=/datadog-lib", "/node_modules/dd-trace/init");
  }

  lemma OptionIsIdempotent(v: string, option: string)
    requires IsWord(option)
    ensures AppendOption(AppendOption(v, option), option) == AppendOption(v, option)
  {
    FieldsOfAppended(v, option);
    assert Fields(v + " " + option)[|Fields(v)|] == option;
  }

  /** A path put before or after a path list is in the list. */
  lemma PathJoined(a: string, b: string, path: string)
    requires ':' !in path && (path == a || path == b)
    ensures PathListContains(a + ":" + b, path)
  {
    SplitOfConcat(a, b, ':');
    SplitOfPlain(path, ':');
    var parts := Split(a, ':') + Split(b, ':');
    if path == a {
      assert parts[0] == path;
    } else {
      assert parts[|Split(a, ':')|] == path;
    }
  }

  lemma PathsArePlain()
    ensures ':' !in PYTHON_VALUE && ':' !in MOUNT_PATH
  {
  }

  lemma PathListsAreIdempotent(v: string)
    ensures PythonPath(PythonPath(v)) == PythonPath(v)
    ensures PhpScanDir(PhpScanDir(v)) == PhpScanDir(v)
    ensures PhpLoaderPath(PhpLoaderPath(v)) == PhpLoaderPath(v)
  {
    PathsArePlain();
    SplitOfPlain(PYTHON_VALUE, ':');
    assert PathListContains(PYTHON_VALUE, PYTHON_VALUE);
    PathJoined(PYTHON_VALUE, v, PYTHON_VALUE);
    PathJoined(PHP_DEFAULT_INI, MOUNT_PATH, MOUNT_PATH);
    PathJoined(v, MOUNT_PATH, MOUNT_PATH);
  }

  lemma SettingsAreIdempotent()
    ensures Idempotent(AppendJavaAgent) && Idempotent(PythonPath) && Idempotent(PhpLoaderPath)
    ensures Idempotent(PhpScanDir) && Idempotent(NodeOptions)
  {
    hide AppendJavaAgent, PythonPath, PhpLoaderPath, PhpScanDir, AppendOption;
    NodeOptionIsAWord();
    forall v ensures AppendJavaAgent(AppendJavaAgent(v)) == AppendJavaAgent(v) { JavaAgentIsIdempotent(v); }
    forall v ensures PythonPath(PythonPath(v)) == PythonPath(v) { PathListsAreIdempotent(v); }
    forall v ensures PhpLoaderPath(PhpLoaderPath(v)) == PhpLoaderPath(v) { PathListsAreIdempotent(v); }
    forall v ensures PhpScanDir(PhpScanDir(v)) == PhpScanDir(v) { PathListsAreIdempotent(v); }
    forall v ensures NodeOptions(NodeOptions(v)) == NodeOptions(v) { OptionIsIdempotent(v, NODE_OPTION); }
  }

  /** The variables of one language differ from each other and from the tags. */
  ghost predicate WellChosen(settings: seq<Setting>) {
    && (forall s <- settings :: Idempotent(s.rewrite) && s.key != DD_TAGS)
    && (forall i, j | 0 <= i < j < |settings| :: settings[i].key != settings[j].key)
  }

  lemma SettingsAreWellChosen(language: string)
    requires SettingsOf(language).Some?
    ensures WellChosen(SettingsOf(language).value)
  {
    hide Idempotent;
    SettingsAreIdempotent();
    assert |PHP_LOADER_KEY| != |PHP_SCAN_KEY|;
  }

  // ----- a settled variable stays settled -----

  lemma LookupAt(env: seq<EnvVar>, i: nat, name: string)
    requires i < |env| && env[i].name == name && forall k | 0 <= k < i :: env[k].name != name
    ensures Lookup(env, name) == Some(env[i])
  {
  }

  lemma SettledIsUnchanged(env: seq<EnvVar>, s: Setting)
    requires Settled(env, s)
    ensures SetEnv(env, s) == Some(env)
  {
    var i := FirstNamed(env, EnvName, s.key, 0);
    assert env[i].(value := s.rewrite(env[i].value)) == env[i];
    assert env[i := env[i]] == env;
  }

  lemma SetEnvSettles(env: seq<EnvVar>, s: Setting)
    requires Idempotent(s.rewrite) && SetEnv(env, s).Some?
    ensures Settled(SetEnv(env, s).value, s)
  {
    var i := FirstNamed(env, EnvName, s.key, 0);
    var r := SetEnv(env, s).value;
    assert r[i].name == s.key && forall k | 0 <= k < i :: r[k] == env[k];
    LookupAt(r, i, s.key);
  }

  lemma PrefixKeepsLookup(env: seq<EnvVar>, longer: seq<EnvVar>, name: string)
    requires env <= longer && Lookup(env, name).Some?
    ensures Lookup(longer, name) == Lookup(env, name)
  {
    LookupAt(longer, FirstNamed(env, EnvName, name, 0), name);
  }

  lemma SetEnvKeepsOthers(env: seq<EnvVar>, s: Setting, name: string)
    requires SetEnv(env, s).Some? && name != s.key && Lookup(env, name).Some?
    ensures Lookup(SetEnv(env, s).value, name) == Lookup(env, name)
  {
    LookupAt(SetEnv(env, s).value, FirstNamed(env, EnvName, name, 0), name);
  }

  lemma MergeKeepsOthers(env: seq<EnvVar>, incoming: EnvVar, name: string)
    requires name != DD_TAGS && Lookup(env, name).Some?
    ensures Lookup(MergeTags(env, incoming), name) == Lookup(env, name)
  {
    hide Pairs.Append, Lookup;
    var t := FirstNamed(env, EnvName, DD_TAGS, 0);
    if t < |env| && env[t].valueFrom.None? {
      var last := MergeTags(env, incoming)[|env| - 1];
      RemovalKeepsOthers(env, t, last, name);
    } else {
      PrefixKeepsLookup(env, MergeTags(env, incoming), name);
    }
  }

  lemma RemovalKeepsOthers(env: seq<EnvVar>, t: nat, last: EnvVar, name: string)
    requires t < |env| && env[t].name != name && Lookup(env, name).Some?
    ensures Lookup(env[..t] + env[t + 1..] + [last], name) == Lookup(env, name)
  {
    var i := FirstNamed(env, EnvName, name, 0);
    var r := env[..t] + env[t + 1..] + [last];
    LookupAt(r, if t < i then i - 1 else i, name);
  }

  lemma {:induction false} GlobalEnvsKeepLookup(env: seq<EnvVar>, incoming: seq<EnvVar>, name: string)
    requires name != DD_TAGS && Lookup(env, name).Some?
    ensures Lookup(GlobalEnvs(env, incoming), name) == Lookup(env, name)
    decreases |incoming|
  {
    hide MergeTags, Lookup;
    if incoming != [] {
      var first := incoming[0];
      if first.name == DD_TAGS {
        MergeKeepsOthers(env, first, name);
      } else {
        KeepingAppends(env, first);
        PrefixKeepsLookup(env, GlobalEnv(env, first), name);
      }
      GlobalEnvsKeepLookup(GlobalEnv(env, first), incoming[1..], name);
    }
  }

  lemma KeepingAppends(env: seq<EnvVar>, incoming: EnvVar)
    ensures env <= WithEnvVar(env, incoming, Some(KeepExisting))
  {
    var i := FirstNamed(env, EnvName, incoming.name, 0);
    assert i < |env| ==> env[i := env[i]] == env;
  }

  // ----- an injected pod is complete -----

  ghost predicate AllSettled(containers: seq<Container>, settings: seq<Setting>) {
    forall c <- containers :: forall s <- settings :: Settled(c.env, s)
  }

  lemma SetOnAllKeepsOthers(containers: seq<Container>, s: Setting, done: seq<Setting>)
    requires SetOnAll(containers, s).Some? && AllSettled(containers, done) && Idempotent(s.rewrite)
    requires forall d <- done :: d.key != s.key
    ensures AllSettled(WithMountOnAll(SetOnAll(containers, s).value, LibraryMount()), done + [s])
  {
    hide Settled, Idempotent, SetEnv;
    var r := WithMountOnAll(SetOnAll(containers, s).value, LibraryMount());
    forall i, d | 0 <= i < |r| && d in done + [s] ensures Settled(r[i].env, d) {
      assert SetEnv(containers[i].env, s).Some? && r[i].env == SetEnv(containers[i].env, s).value;
      SetEnvSettles(containers[i].env, s);
      if d in done {
        assert containers[i] in containers;
        SettledStays(containers[i].env, s, d);
      }
    }
  }

  lemma SettledStays(env: seq<EnvVar>, s: Setting, d: Setting)
    requires SetEnv(env, s).Some? && Settled(env, d) && d.key != s.key
    ensures Settled(SetEnv(env, s).value, d)
  {
    hide Lookup, SetEnv;
    SetEnvKeepsOthers(env, s, d.key);
  }

  lemma {:induction false} ConfigSettles(pod: Pod, done: seq<Setting>, settings: seq<Setting>)
    requires WellChosen(done + settings) && InjectConfig(pod, settings).Some? && AllSettled(pod.containers, done)
    ensures AllSettled(InjectConfig(pod, settings).value.containers, done + settings)
    decreases |settings|
  {
    hide AllSettled, Idempotent, SetOnAll;
    if settings == [] {
      assert done + settings == done;
    } else {
      var s := settings[0];
      var all := done + settings;
      assert all[|done|] == s && s in all;
      forall d | d in done ensures d.key != s.key {
        var i :| 0 <= i < |done| && done[i] == d;
        assert all[i] == d;
      }
      SetOnAllKeepsOthers(pod.containers, s, done);
      var next := pod.(containers := WithMountOnAll(SetOnAll(pod.containers, s).value, LibraryMount()));
      assert done + [s] + settings[1..] == all;
      ConfigSettles(next, done + [s], settings[1..]);
    }
  }

  lemma {:induction false} ConfigTouchesContainersOnly(pod: Pod, settings: seq<Setting>)
    requires InjectConfig(pod, settings).Some?
    ensures InjectConfig(pod, settings).value == pod.(containers := InjectConfig(pod, settings).value.containers)
    decreases |settings|
  {
    hide SetOnAll, WithMountOnAll;
    if settings != [] {
      ConfigTouchesContainersOnly(
        pod.(containers := WithMountOnAll(SetOnAll(pod.containers, settings[0]).value, LibraryMount())), settings[1..]);
    }
  }

  lemma GlobalEnvsKeepSettled(containers: seq<Container>, incoming: seq<EnvVar>, settings: seq<Setting>)
    requires AllSettled(containers, settings) && forall s <- settings :: s.key != DD_TAGS
    ensures AllSettled(GlobalEnvsOnAll(containers, incoming), settings)
  {
    hide Lookup, GlobalEnvs;
    var r := GlobalEnvsOnAll(containers, incoming);
    forall i, s | 0 <= i < |r| && s in settings ensures Settled(r[i].env, s) {
      assert containers[i] in containers;
      GlobalEnvsKeepLookup(containers[i].env, incoming, s.key);
    }
  }

  /** After a successful injection every container has every variable of the language set. */
  lemma InjectedIsSettled(config: Config, pod: Pod, selection: Selection, settings: seq<Setting>)
    requires WellChosen(settings) && Inject(config, pod, selection, settings).Some?
    ensures AllSettled(Inject(config, pod, selection, settings).value.containers, settings)
  {
    hide AllSettled, InjectConfig, GlobalEnvsOnAll, RuleEnvs, Idempotent;
    var started := pod.(initContainers :=
                          AddNamed(pod.initContainers, ContainerName,
                                   InitContainer(selection.rule, ImageOf(config, selection))));
    assert [] + settings == settings;
    NothingToSettle(pod.containers);
    ConfigSettles(started, [], settings);
    var configured := InjectConfig(started, settings).value;
    GlobalEnvsKeepSettled(configured.containers, RuleEnvs(selection.rule, configured.containers), settings);
  }

  lemma NothingToSettle(containers: seq<Container>)
    ensures AllSettled(containers, [])
  {
  }

  // ----- repair -----

  lemma SettledNeedsNoRepair(c: Container)
    requires Settled(c.env, JavaSetting())
    ensures Repaired(c) == c
  {
    SettledIsUnchanged(c.env, JavaSetting());
  }

  lemma RepairTwice(c: Container)
    ensures Repaired(Repaired(c)) == Repaired(c)
  {
    hide SetEnv, Settled, Idempotent, AppendJavaAgent;
    SettingsAreIdempotent();
    var env := SetEnv(c.env, JavaSetting());
    if HasLibraryMount(c) && env.Some? {
      SetEnvSettles(c.env, JavaSetting());
      SettledNeedsNoRepair(c.(env := env.value));
    }
  }

  lemma RepairIsIdempotent(pod: Pod)
    ensures RepairJava(RepairJava(pod)) == RepairJava(pod)
  {
    hide Repaired;
    if CanRepair(pod) {
      var once := RepairJava(pod);
      forall i | 0 <= i < |pod.containers| ensures RepairJava(once).containers[i] == once.containers[i] {
        RepairTwice(pod.containers[i]);
      }
      assert RepairJava(once).containers == once.containers;
    }
  }

  /** Nothing is left to repair where every container has the agent. */
  lemma CompleteNeedsNoRepair(pod: Pod)
    requires AllSettled(pod.containers, [JavaSetting()])
    ensures RepairJava(pod) == pod
  {
    hide Repaired, Settled;
    forall i | 0 <= i < |pod.containers| ensures Repaired(pod.containers[i]) == pod.containers[i] {
      assert JavaSetting() in [JavaSetting()] && pod.containers[i] in pod.containers;
      SettledNeedsNoRepair(pod.containers[i]);
    }
    assert CanRepair(pod) ==> RepairJava(pod).containers == pod.containers;
  }

  /** The repair gives the agent to every container that has the library mount and may be changed, and to no other. */
  lemma RepairGivesTheAgent(pod: Pod, i: nat)
    requires CanRepair(pod) && i < |pod.containers|
    ensures var (was, now) := (pod.containers[i], RepairJava(pod).containers[i]);
            && now == was.(env := now.env)
            && (HasLibraryMount(was) && !Refers(was.env, JavaSetting()) ==> Settled(now.env, JavaSetting()))
            && (!HasLibraryMount(was) || Refers(was.env, JavaSetting()) ==> now == was)
  {
    hide AppendJavaAgent, Idempotent, Settled;
    SettingsAreIdempotent();
    var c := pod.containers[i];
    SetEnvRefusesReferences(c.env, JavaSetting());
    if SetEnv(c.env, JavaSetting()).Some? {
      SetEnvSettles(c.env, JavaSetting());
    }
  }

  // ----- refusal -----

  /** The variable is there and refers to a value elsewhere. */
  predicate Refers(env: seq<EnvVar>, s: Setting) {
    Lookup(env, s.key).Some? && Lookup(env, s.key).value.valueFrom.Some?
  }

  lemma SetEnvRefusesReferences(env: seq<EnvVar>, s: Setting)
    ensures SetEnv(env, s).None? <==> Refers(env, s)
  {
  }

  lemma LookupAbsent(env: seq<EnvVar>, name: string)
    ensures Lookup(env, name).None? <==> forall k | 0 <= k < |env| :: env[k].name != name
  {
  }

  lemma ReferencesStay(env: seq<EnvVar>, s: Setting, d: Setting)
    requires SetEnv(env, s).Some? && d.key != s.key
    ensures Refers(SetEnv(env, s).value, d) == Refers(env, d)
  {
    if Lookup(env, d.key).Some? {
      SetEnvKeepsOthers(env, s, d.key);
    } else {
      LookupAbsent(env, d.key);
      LookupAbsent(SetEnv(env, s).value, d.key);
    }
  }

  ghost predicate SomeRefers(containers: seq<Container>, settings: seq<Setting>) {
    exists c, s :: c in containers && s in settings && Refers(c.env, s)
  }

  lemma SetOnAllKeepsReferences(containers: seq<Container>, s: Setting, rest: seq<Setting>)
    requires SetOnAll(containers, s).Some? && forall d <- rest :: d.key != s.key
    ensures SomeRefers(WithMountOnAll(SetOnAll(containers, s).value, LibraryMount()), rest)
            <==> SomeRefers(containers, rest)
  {
    hide Refers, SetEnv;
    var r := WithMountOnAll(SetOnAll(containers, s).value, LibraryMount());
    forall i, d | 0 <= i < |containers| && d in rest ensures Refers(r[i].env, d) == Refers(containers[i].env, d) {
      assert SetEnv(containers[i].env, s).Some? && r[i].env == SetEnv(containers[i].env, s).value;
      ReferencesStay(containers[i].env, s, d);
    }
    assert forall i | 0 <= i < |containers| :: r[i] in r && containers[i] in containers;
  }

  /** The injection is refused exactly when some container has one of the variables refer to a value elsewhere. */
  lemma {:induction false} ConfigRefusedIff(pod: Pod, settings: seq<Setting>)
    requires WellChosen(settings)
    ensures InjectConfig(pod, settings).None? <==> SomeRefers(pod.containers, settings)
    decreases |settings|
  {
    hide Idempotent, SetOnAll, WithMountOnAll, SomeRefers;
    SomeRefersSplits(pod.containers, settings);
    if settings != [] {
      var s, rest := settings[0], settings[1..];
      SetOnAllRefusedIff(pod.containers, s);
      if SetOnAll(pod.containers, s).Some? {
        forall d | d in rest ensures d.key != s.key {
          var i :| 0 <= i < |rest| && rest[i] == d;
          assert settings[i + 1] == d;
        }
        SetOnAllKeepsReferences(pod.containers, s, rest);
        ConfigRefusedIff(pod.(containers := WithMountOnAll(SetOnAll(pod.containers, s).value, LibraryMount())), rest);
      }
    }
  }

  lemma SomeRefersSplits(containers: seq<Container>, settings: seq<Setting>)
    ensures settings == [] ==> !SomeRefers(containers, settings)
    ensures settings != [] ==>
              (SomeRefers(containers, settings) <==>
                 (exists c :: c in containers && Refers(c.env, settings[0])) || SomeRefers(containers, settings[1..]))
  {
    hide Refers;
    if settings != [] {
      assert settings == [settings[0]] + settings[1..];
      assert settings[0] in settings && forall s <- settings :: s == settings[0] || s in settings[1..];
      if SomeRefers(containers, settings[1..]) {
        var c, s :| c in containers && s in settings[1..] && Refers(c.env, s);
        assert s in settings;
      }
    }
  }

  lemma SetOnAllRefusedIff(containers: seq<Container>, s: Setting)
    ensures SetOnAll(containers, s).None? <==> exists c :: c in containers && Refers(c.env, s)
  {
    hide SetEnv, Refers;
    forall i | 0 <= i < |containers| ensures SetEnv(containers[i].env, s).None? <==> Refers(containers[i].env, s) {
      SetEnvRefusesReferences(containers[i].env, s);
    }
  }
}
