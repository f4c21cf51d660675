/** What OpenTelemetry injection promises: a second run finds everything in place. */
module OTelProperties {
  import opened Options
  import opened Text
  import opened Words
  import opened Pods
  import opened PodManagers
  import opened TracingRules
  import opened OTel

  // ----- rewriting an accepted value once is enough -----

  lemma JavaOptionIsAWord()
    ensures IsWord(JAVA_OPTION)
  {
    hide IsWord;
    VisibleIsWord("/otel-auto-instrumentation-java", "/javaagent.jar");
    VisibleIsWord("-javaagent:", JAVA_AGENT_PATH);
  }

  lemma FieldsOfWord(word: string)
    requires IsWord(word)
    ensures Fields(word) == [word]
  {
    assert WordLength(word) == |word|;
    assert word[..|word|] == word && word[|word|..] == "";
  }

  lemma OptionSettles(v: string, option: string)
    requires IsWord(option)
    ensures WithOption(WithOption(v, option), option) == WithOption(v, option)
    ensures WithOption(option, option) == option
  {
    FieldsOfWord(option);
    FieldsOfAppended(v, option);
    assert Fields(v + " " + option)[|Fields(v)|] == option;
  }

  lemma {:induction false} CountConcat(a: seq<string>, b: seq<string>, part: string)
    ensures CountIn(a + b, part) == CountIn(a, part) + CountIn(b, part)
  {
    if a == [] {
      assert a + b == b;
    } else {
      assert (a + b)[1..] == a[1..] + b;
      CountConcat(a[1..], b, part);
    }
  }

  lemma {:induction false} CountOfAbsent(parts: seq<string>, part: string)
    requires part !in parts
    ensures CountIn(parts, part) == 0
  {
    if parts != [] {
      CountOfAbsent(parts[1..], part);
    }
  }

  lemma PythonPartsArePlain()
    ensures ':' !in PYTHON_PREFIX && ':' !in PYTHON_MOUNT && PYTHON_PREFIX != PYTHON_MOUNT
  {
    assert PYTHON_PREFIX == PYTHON_MOUNT + PYTHON_SUBPATH && |PYTHON_SUBPATH| > 0;
    assert ':' !in "/opentelemetry/instrumentation" && ':' !in "/auto_instrumentation";
  }

  /** A path list framed by two paths that were not in it has each of them once. */
  lemma FrameIsComplete(inner: seq<string>, first: string, last: string)
    requires first != last && first !in inner && last !in inner
    ensures IsFramed([first] + inner + [last], first, last)
  {
    CountOfAbsent(inner, first);
    CountOfAbsent(inner, last);
    CountConcat([first] + inner, [last], first);
    CountConcat([first], inner, first);
    CountConcat([first] + inner, [last], last);
    CountConcat([first], inner, last);
  }

  lemma FramedSettles(v: string, first: string, last: string)
    requires ':' !in first && ':' !in last && first != last
    requires IsFramed(Split(v, ':'), first, last) || (first !in Split(v, ':') && last !in Split(v, ':'))
    ensures Framed(Framed(v, first, last), first, last) == Framed(v, first, last)
    ensures Framed(first + ":" + last, first, last) == first + ":" + last
  {
    hide IsFramed;
    SplitOfPlain(first, ':');
    SplitOfPlain(last, ':');
    SplitOfConcat(first, last, ':');
    FrameIsComplete([], first, last);
    assert [first] + [] + [last] == [first] + [last];
    if !IsFramed(Split(v, ':'), first, last) {
      SplitOfConcat(first + ":" + v, last, ':');
      SplitOfConcat(first, v, ':');
      FrameIsComplete(Split(v, ':'), first, last);
    }
  }

  lemma {:induction false} PairCountAppended(fields: seq<string>, a: string, b: string)
    requires a != b
    ensures PairCount(fields + [a, b], a, b) == PairCount(fields, a, b) + 1
  {
    var longer := fields + [a, b];
    if fields == [] {
      assert longer == [a, b];
      assert longer[1..] == [b];
    } else {
      assert longer[1..] == fields[1..] + [a, b];
      PairCountAppended(fields[1..], a, b);
    }
  }

  lemma NodePartsAreWords()
    ensures IsWord(REQUIRE) && IsWord(NODE_PATH) && REQUIRE != NODE_PATH
  {
    hide IsWord;
    VisibleIsWord(REQUIRE, REQUIRE);
    VisibleIsWord(NODE_MOUNT, "/autoinstrumentation.js");
    assert NODE_PATH[0] != REQUIRE[0];
  }

  lemma RequireIsCounted(v: string)
    ensures RequireCount(v + " " + REQUIRE + " " + NODE_PATH) == RequireCount(v) + 1
  {
    hide Fields, IsWord;
    NodePartsAreWords();
    FieldsOfAppended(v, REQUIRE);
    FieldsOfAppended(v + " " + REQUIRE, NODE_PATH);
    assert Fields(v) + [REQUIRE] + [NODE_PATH] == Fields(v) + [REQUIRE, NODE_PATH];
    PairCountAppended(Fields(v), REQUIRE, NODE_PATH);
  }

  lemma NodeOptionsSettle(v: string)
    requires RequireCount(v) <= 1
    ensures NodeOptions(NodeOptions(v)) == NodeOptions(v)
    ensures NodeOptions(" " + REQUIRE + " " + NODE_PATH) == " " + REQUIRE + " " + NODE_PATH
  {
    RequireIsCounted(v);
    RequireIsCounted("");
    assert "" + " " + REQUIRE + " " + NODE_PATH == " " + REQUIRE + " " + NODE_PATH;
    NoFieldsNoRequire();
    hide RequireCount;
  }

  lemma NoFieldsNoRequire()
    ensures RequireCount("") == 0
  {
  }

  /** Whatever the language, an accepted value is rewritten at most once. */
  lemma AcceptedValuesSettle(language: string, v: string)
    requires LibraryOf(language).Some?
    ensures var library := LibraryOf(language).value;
            && (library.accepts(v) ==> library.rewrite(library.rewrite(v)) == library.rewrite(v))
            && library.rewrite(library.missing) == library.missing
  {
    hide WithOption, Framed, NodeOptions, JavaAccepts, PythonAccepts, NodeAccepts;
    if language == JAVA {
      JavaOptionIsAWord();
      OptionSettles(v, JAVA_OPTION);
    } else if language == PYTHON {
      AcceptedPythonPathSettles(v);
    } else {
      AcceptedNodeOptionsSettle(v);
    }
  }

  lemma AcceptedPythonPathSettles(v: string)
    ensures PythonAccepts(v) ==> PythonPath(PythonPath(v)) == PythonPath(v)
    ensures PythonPath(PYTHON_PREFIX + ":" + PYTHON_MOUNT) == PYTHON_PREFIX + ":" + PYTHON_MOUNT
  {
    hide IsFramed, Framed, Split;
    PythonPartsArePlain();
    SplitOfPlain("", ':');
    if PythonAccepts(v) {
      FramedSettles(v, PYTHON_PREFIX, PYTHON_MOUNT);
    } else {
      EmptyPathList();
      FramedSettles("", PYTHON_PREFIX, PYTHON_MOUNT);
    }
  }

  lemma EmptyPathList()
    ensures PYTHON_PREFIX !in Split("", ':') && PYTHON_MOUNT !in Split("", ':')
  {
    assert PYTHON_PREFIX != "" && PYTHON_MOUNT != "";
  }

  lemma AcceptedNodeOptionsSettle(v: string)
    ensures NodeAccepts(v) ==> NodeOptions(NodeOptions(v)) == NodeOptions(v)
    ensures NodeOptions(" " + REQUIRE + " " + NODE_PATH) == " " + REQUIRE + " " + NODE_PATH
  {
    hide NodeOptions;
    NoFieldsNoRequire();
    hide RequireCount;
    NodeOptionsSettle("");
    if NodeAccepts(v) {
      NodeOptionsSettle(v);
    }
  }

  lemma OptionIsAdded(v: string, option: string)
    requires IsWord(option)
    ensures v <= WithOption(v, option) && option in Fields(WithOption(v, option))
  {
    FieldsOfWord(option);
    FieldsOfAppended(v, option);
    assert Fields(v + " " + option)[|Fields(v)|] == option;
  }

  lemma FrameIsAdded(v: string, first: string, last: string)
    requires ':' !in first && ':' !in last && v != "" && !IsFramed(Split(v, ':'), first, last)
    ensures Split(Framed(v, first, last), ':') == [first] + Split(v, ':') + [last]
  {
    SplitOfPlain(first, ':');
    SplitOfPlain(last, ':');
    SplitOfConcat(first + ":" + v, last, ':');
    SplitOfConcat(first, v, ':');
  }

  /** Whatever the language, the application's own value stays, and the library is added around it. */
  lemma RewritingOnlyAdds(v: string)
    ensures v <= JavaOptions(v) && JAVA_OPTION in Fields(JavaOptions(v))
    ensures v <= NodeOptions(v) && (RequireCount(v) <= 1 ==> RequireCount(NodeOptions(v)) == 1)
    ensures v != "" && !IsPythonPathInjected(v) ==>
              Split(PythonPath(v), ':') == [PYTHON_PREFIX] + Split(v, ':') + [PYTHON_MOUNT]
  {
    hide IsFramed, Framed, WithOption, RequireCount, IsWord;
    JavaOptionIsAWord();
    OptionIsAdded(v, JAVA_OPTION);
    RequireIsCounted(v);
    PythonPartsArePlain();
    if v != "" && !IsPythonPathInjected(v) {
      FrameIsAdded(v, PYTHON_PREFIX, PYTHON_MOUNT);
    }
  }

  // ----- containers -----

  /** The variable is there with a value that would not be rewritten. */
  predicate Settled(env: seq<EnvVar>, library: Library) {
    match Lookup(env, library.key)
    case None => false
    case Some(v) => library.rewrite(v.value) == v.value
  }

  lemma SettledIsUnchanged(env: seq<EnvVar>, library: Library)
    requires Settled(env, library)
    ensures SetEnv(env, library) == env
  {
    var i := FirstNamed(env, EnvName, library.key, 0);
    assert env[i].(value := library.rewrite(env[i].value)) == env[i];
  }

  lemma SetEnvSettles(language: string, env: seq<EnvVar>)
    requires LibraryOf(language).Some?
    requires EnvAccepted(env, LibraryOf(language).value.key, LibraryOf(language).value.accepts)
    ensures Settled(SetEnv(env, LibraryOf(language).value), LibraryOf(language).value)
  {
    var library := LibraryOf(language).value;
    hide LibraryOf;
    var i := FirstNamed(env, EnvName, library.key, 0);
    var r := SetEnv(env, library);
    AcceptedValuesSettle(language, if i < |env| then env[i].value else "");
    assert r[i].name == library.key && forall k | 0 <= k < i :: r[k] == env[k];
    assert FirstNamed(r, EnvName, library.key, 0) == i;
  }

  lemma PrefixStaysSettled(env: seq<EnvVar>, longer: seq<EnvVar>, library: Library)
    requires Settled(env, library) && env <= longer
    ensures Settled(longer, library)
  {
    var i := FirstNamed(env, EnvName, library.key, 0);
    assert forall k | 0 <= k <= i :: longer[k] == env[k];
    assert FirstNamed(longer, EnvName, library.key, 0) == i;
  }

  /** The container has the mount, the variable of the library and every variable of the rule. */
  ghost predicate Complete(c: Container, library: Library, incoming: seq<EnvVar>) {
    && HasName(c.mounts, MountName, VOLUME)
    && Settled(c.env, library)
    && forall v <- incoming :: HasName(c.env, EnvName, v.name)
  }

  function WithKept(c: Container, incoming: seq<EnvVar>): Container {
    c.(env := WithEnvVars(c.env, incoming, Some(KeepExisting)))
  }

  lemma InjectedIsComplete(language: string, c: Container, incoming: seq<EnvVar>)
    requires LibraryOf(language).Some?
    requires EnvAccepted(c.env, LibraryOf(language).value.key, LibraryOf(language).value.accepts)
    ensures var library := LibraryOf(language).value;
            Complete(WithKept(Instrumented(c, library), incoming), library, incoming)
  {
    var library := LibraryOf(language).value;
    hide LibraryOf, Settled, EnvAccepted, WithEnvVars;
    var instrumented := Instrumented(c, library);
    SetEnvSettles(language, c.env);
    KeepExistingOnlyAppends(instrumented.env, incoming);
    PrefixStaysSettled(instrumented.env, WithKept(instrumented, incoming).env, library);
    MountIsThere(c.(env := SetEnv(c.env, library)), library.mountPath);
  }

  lemma MountIsThere(c: Container, mountPath: string)
    ensures HasName(WithMount(c, LibraryMount(mountPath)).mounts, MountName, VOLUME)
  {
    var mounts := WithMount(c, LibraryMount(mountPath)).mounts;
    if !HasName(c.mounts, MountName, VOLUME) {
      assert MountName(mounts[|c.mounts|]) == VOLUME;
    }
  }

  lemma CompleteIsUnchanged(c: Container, library: Library, incoming: seq<EnvVar>)
    requires Complete(c, library, incoming)
    ensures Instrumented(c, library) == c && WithKept(c, incoming) == c
  {
    hide Settled;
    SettledIsUnchanged(c.env, library);
    KeepExistingOnlyAppends(c.env, incoming);
  }

  // ----- the pod -----

  lemma AddedIsThere<T>(items: seq<T>, nameOf: T -> string, item: T)
    ensures HasName(AddNamed(items, nameOf, item), nameOf, nameOf(item))
  {
    var r := AddNamed(items, nameOf, item);
    if !HasName(items, nameOf, nameOf(item)) {
      assert nameOf(r[|items|]) == nameOf(item);
    }
  }

  /** Injecting again into an injected pod, whatever init container it would add, changes nothing. */
  lemma InjectTwice(language: string, pod: Pod, rule: Rule, first: Container, second: Container)
    requires LibraryOf(language).Some? && first.name == second.name
    requires forall c <- pod.containers ::
               EnvAccepted(c.env, LibraryOf(language).value.key, LibraryOf(language).value.accepts)
    ensures var library := LibraryOf(language).value;
            Inject(Inject(pod, rule, first, library), rule, second, library) == Inject(pod, rule, first, library)
  {
    var library := LibraryOf(language).value;
    hide LibraryOf, EnvAccepted, Instrumented, WithEnvVars, Complete;
    var once := Inject(pod, rule, first, library);
    AddedIsThere(pod.initContainers, ContainerName, first);
    AddedIsThere(pod.volumes, VolumeName, LibraryVolume());
    var incoming := RuleEnvs(rule, InstrumentedAll(pod.containers, library));
    forall i | 0 <= i < |pod.containers|
      ensures once.containers[i] == WithKept(Instrumented(pod.containers[i], library), incoming)
      ensures Complete(once.containers[i], library, incoming)
    {
      InjectedIsComplete(language, pod.containers[i], incoming);
    }
    UnchangedAll(once.containers, library, incoming);
    FirstKeepsSpec(pod.containers, library, incoming, rule);
  }

  lemma UnchangedAll(containers: seq<Container>, library: Library, incoming: seq<EnvVar>)
    requires forall i | 0 <= i < |containers| :: Complete(containers[i], library, incoming)
    ensures InstrumentedAll(containers, library) == containers && EnvsOnAll(containers, incoming) == containers
  {
    hide Complete, Instrumented, WithEnvVars;
    forall i | 0 <= i < |containers|
      ensures InstrumentedAll(containers, library)[i] == containers[i]
      ensures EnvsOnAll(containers, incoming)[i] == containers[i]
    {
      CompleteIsUnchanged(containers[i], library, incoming);
    }
  }

  /** The rule's variables depend on the first container's name and resources, which stay. */
  lemma FirstKeepsSpec(containers: seq<Container>, library: Library, incoming: seq<EnvVar>, rule: Rule)
    ensures RuleEnvs(rule, EnvsOnAll(InstrumentedAll(containers, library), incoming)) ==
            RuleEnvs(rule, InstrumentedAll(containers, library))
  {
    hide SetEnv, WithEnvVars;
  }

  // ----- what validation is for -----

  predicate IsLibraryMount(m: VolumeMount, mountPath: string) {
    m.name == VOLUME && m.mountPath == mountPath && m.subPath == "" && m.subPathExpr == ""
  }

  predicate MountsLibrary(c: Container, mountPath: string) {
    exists m <- c.mounts :: IsLibraryMount(m, mountPath)
  }

  lemma AcceptedMountsLibrary(c: Container, library: Library)
    requires forall m <- c.mounts :: MountAccepted(m, library.mountPath)
    ensures MountsLibrary(Instrumented(c, library), library.mountPath)
  {
    hide SetEnv;
    var mount := LibraryMount(library.mountPath);
    var mounts := Instrumented(c, library).mounts;
    if HasName(c.mounts, MountName, VOLUME) {
      var i :| 0 <= i < |c.mounts| && MountName(c.mounts[i]) == VOLUME;
      assert MountAccepted(c.mounts[i], library.mountPath);
      assert IsLibraryMount(mounts[i], library.mountPath) && mounts[i] in mounts;
    } else {
      assert IsLibraryMount(mounts[|c.mounts|], library.mountPath) && mounts[|c.mounts|] in mounts;
    }
  }

  /**
   An injection that validation let through is one that works: every container mounts the library
   where it is loaded from, the volume is an empty directory, the init container copies the
   selected library into it, and the pod has no Datadog init container.
   */
  lemma AcceptedInjectionWorks(
      config: Config, configured: string, pod: Pod, rule: Rule, image: string, library: Library)
    requires Accepted(config, configured, pod, InitContainer(rule, image, library, pod.containers), library)
    ensures var desired := InitContainer(rule, image, library, pod.containers);
            var r := Inject(pod, rule, desired, library);
            && (forall i | 0 <= i < |r.containers| :: MountsLibrary(r.containers[i], library.mountPath))
            && HasName(r.volumes, VolumeName, VOLUME) && (forall v <- r.volumes :: v.name == VOLUME ==> v.emptyDir)
            && HasInitContainer(r, OTEL_INIT) && !HasInitContainer(r, DDTRACE_INIT)
            && (forall c <- r.initContainers :: c.name == OTEL_INIT ==>
                  c.spec.image == image && c.spec.command == library.command
                  && LibraryMount(library.mountPath) in c.mounts)
  {
    hide Instrumented, EnvAccepted, SecurityCompatible, MountsLibrary, MountAccepted, WithEnvVars;
    var desired := InitContainer(rule, image, library, pod.containers);
    var r := Inject(pod, rule, desired, library);
    AddedIsThere(pod.volumes, VolumeName, LibraryVolume());
    AddedIsThere(pod.initContainers, ContainerName, desired);
    forall i | 0 <= i < |r.containers| ensures MountsLibrary(r.containers[i], library.mountPath) {
      assert pod.containers[i] in pod.containers;
      AcceptedMountsLibrary(pod.containers[i], library);
      SameMountsSameLibrary(Instrumented(pod.containers[i], library), r.containers[i], library.mountPath);
    }
    assert forall c <- r.initContainers ::
        c.name == OTEL_INIT ==> c == desired || InitCompatible(config, c, desired);
    assert |DDTRACE_INIT| != |OTEL_INIT|;
  }

  lemma SameMountsSameLibrary(a: Container, b: Container, mountPath: string)
    requires a.mounts == b.mounts
    ensures MountsLibrary(a, mountPath) == MountsLibrary(b, mountPath)
  {
  }
}
