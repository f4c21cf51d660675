/**
 When a pod can be instrumented by OpenTelemetry and what it looks like afterwards, told in the
 variables and paths of each language.
 */
module OTelOutcomes {
  import opened Options
  import opened Text
  import opened Words
  import opened Pods
  import opened PodManagers
  import opened TracingRules
  import opened DDTraceOutcomes
  import DP = DDTraceProperties
  import OTel
  import OP = OTelProperties

  // ----- texts -----

  /** The text occurs somewhere. */
  predicate Occurs(s: string, part: string) {
    exists i | 0 <= i <= |s| :: part <= s[i..]
  }

  lemma {:induction false} ContainsIff(s: string, part: string)
    requires part != ""
    ensures Contains(s, part) <==> Occurs(s, part)
    decreases |s|
  {
    if part <= s {
      assert part <= s[0..];
    } else if |s| >= |part| {
      ContainsIff(s[1..], part);
      if Occurs(s, part) {
        var i :| 0 <= i <= |s| && part <= s[i..];
        assert s[1..][i - 1..] == s[i..];
      }
      if Occurs(s[1..], part) {
        var i :| 0 <= i <= |s[1..]| && part <= s[1..][i..];
        assert s[1..][i..] == s[i + 1..];
      }
    }
  }

  /** Occurrences that do not overlap are counted from the left. */
  lemma CountUnfolds(s: string, part: string)
    requires part != ""
    ensures Count("", part) == 0
    ensures Count(part + s, part) == 1 + Count(s, part)
    ensures s != "" && !(part <= s) ==> Count(s, part) == Count(s[1..], part)
  {
    assert (part + s)[|part|..] == s;
  }

  // ----- values -----

  function PathOf(language: string): string {
    if language == "java" then "/otel-auto-instrumentation-java"
    else if language == "python" then "/otel-auto-instrumentation-python"
    else "/otel-auto-instrumentation-nodejs"
  }

  predicate IsSupported(language: string) {
    language == "java" || language == "python" || language == "nodejs"
  }

  function KeyOf(language: string): string {
    if language == "java" then "JAVA_TOOL_OPTIONS" else if language == "python" then "PYTHONPATH" else "NODE_OPTIONS"
  }

  function JavaOption(): string {
    "-javaagent:" + ("/otel-auto-instrumentation-java" + "/javaagent.jar")
  }

  function PythonFirst(): string {
    "/otel-auto-instrumentation-python" + ("/opentelemetry/instrumentation" + "/auto_instrumentation")
  }

  function NodeScript(): string {
    "/otel-auto-instrumentation-nodejs" + "/autoinstrumentation.js"
  }

  predicate JavaAdded(was: string, now: string) {
    if JavaOption() in Fields(was) then now == was
    else
      && Fields(now) == Fields(was) + [JavaOption()]
      && now == if was == "" then JavaOption() else was + " " + JavaOption()
  }

  /** The list starts with the one path and ends with the other, and has neither anywhere else. */
  predicate IsFramed(parts: seq<string>) {
    && |parts| >= 2 && parts[0] == PythonFirst() && parts[|parts| - 1] == PathOf("python")
    && PythonFirst() !in parts[1..] && PathOf("python") !in parts[..|parts| - 1]
  }

  predicate PythonAdded(was: string, now: string) {
    if IsFramed(Split(was, ':')) then now == was
    else Split(now, ':') == [PythonFirst()] + (if was == "" then [] else Split(was, ':')) + [PathOf("python")]
  }

  /** Here "--require" stands in front of the library. */
  predicate RequiresAt(fields: seq<string>, i: int) {
    0 <= i < |fields| - 1 && fields[i] == "--require" && fields[i + 1] == NodeScript()
  }

  predicate RequiresSome(fields: seq<string>) {
    exists i | 0 <= i < |fields| :: RequiresAt(fields, i)
  }

  predicate RequiresAtMostOnce(fields: seq<string>) {
    forall i, j | 0 <= i < j < |fields| :: !(RequiresAt(fields, i) && RequiresAt(fields, j))
  }

  predicate RequiresOnce(fields: seq<string>) {
    RequiresSome(fields) && RequiresAtMostOnce(fields)
  }

  predicate NodeAdded(was: string, now: string) {
    if RequiresOnce(Fields(was)) then now == was
    else now == was + " " + "--require" + " " + NodeScript() && Fields(now) == Fields(was) + ["--require", NodeScript()]
  }

  predicate Added(language: string, was: string, now: string) {
    if language == "java" then JavaAdded(was, now)
    else if language == "python" then PythonAdded(was, now)
    else NodeAdded(was, now)
  }

  lemma {:induction false} CountOnce(parts: seq<string>, part: string)
    ensures parts != [] && parts[0] == part ==> (OTel.CountIn(parts, part) == 1 <==> part !in parts[1..])
    ensures OTel.CountIn(parts, part) == 0 <==> part !in parts
  {
    if parts != [] {
      assert parts == [parts[0]] + parts[1..];
      CountOnce(parts[1..], part);
    }
  }

  lemma CountLast(parts: seq<string>, part: string)
    requires parts != [] && parts[|parts| - 1] == part
    ensures OTel.CountIn(parts, part) == 1 <==> part !in parts[..|parts| - 1]
  {
    var init := parts[..|parts| - 1];
    assert parts == init + [part];
    OP.CountConcat(init, [part], part);
    CountOnce(init, part);
  }

  lemma FramedIff(parts: seq<string>)
    ensures OTel.IsFramed(parts, OTel.PYTHON_PREFIX, OTel.PYTHON_MOUNT) <==> IsFramed(parts)
  {
    if |parts| >= 2 {
      CountOnce(parts, parts[0]);
      CountLast(parts, parts[|parts| - 1]);
    }
  }

  lemma RequiresOfTail(fields: seq<string>)
    requires fields != []
    ensures forall i :: RequiresAt(fields[1..], i) <==> i >= 0 && RequiresAt(fields, i + 1)
  {
  }

  lemma {:induction false} PairsAreRequires(fields: seq<string>)
    ensures OTel.PairCount(fields, OTel.REQUIRE, OTel.NODE_PATH) == 0 <==> !RequiresSome(fields)
    ensures OTel.PairCount(fields, OTel.REQUIRE, OTel.NODE_PATH) <= 1 <==> RequiresAtMostOnce(fields)
  {
    if |fields| >= 2 {
      var rest := fields[1..];
      PairsAreRequires(rest);
      RequiresOfTail(fields);
      SomeOfTail(fields);
    }
  }

  lemma SomeOfTail(fields: seq<string>)
    requires |fields| >= 2
    ensures RequiresSome(fields) <==> RequiresAt(fields, 0) || RequiresSome(fields[1..])
    ensures RequiresAtMostOnce(fields) <==>
              RequiresAtMostOnce(fields[1..]) && !(RequiresAt(fields, 0) && RequiresSome(fields[1..]))
  {
    var rest := fields[1..];
    RequiresOfTail(fields);
    hide RequiresAt;
    forall i | 0 < i < |fields| ensures RequiresAt(fields, i) <==> RequiresAt(rest, i - 1) {
      assert RequiresAt(rest, i - 1) <==> i - 1 >= 0 && RequiresAt(fields, i - 1 + 1);
    }
    if RequiresSome(rest) {
      var i :| 0 <= i < |rest| && RequiresAt(rest, i);
      assert RequiresAt(fields, i + 1);
    }
    if !RequiresAtMostOnce(rest) {
      var i, j :| 0 <= i < j < |rest| && RequiresAt(rest, i) && RequiresAt(rest, j);
      assert RequiresAt(fields, i + 1) && RequiresAt(fields, j + 1);
    }
  }

  lemma LibraryIs(language: string)
    ensures OTel.LibraryOf(language).Some? <==> IsSupported(language)
    ensures IsSupported(language) ==>
              var l := OTel.LibraryOf(language).value;
              l.mountPath == PathOf(language) && l.key == KeyOf(language)
  {
  }

  lemma JavaValueIsAdded(v: string)
    ensures JavaAdded(v, OTel.JavaOptions(v))
  {
    hide IsWord;
    OP.JavaOptionIsAWord();
    FieldsOfAppended(v, OTel.JAVA_OPTION);
    OP.FieldsOfWord(OTel.JAVA_OPTION);
    NoFields();
  }

  lemma NoFields()
    ensures Fields("") == [] && Split("", ':') == [""]
  {
  }

  lemma PythonValueIsAdded(v: string)
    ensures PythonAdded(v, OTel.PythonPath(v))
  {
    hide OTel.IsFramed, IsFramed, Split;
    OP.PythonPartsArePlain();
    FramedIff(Split(v, ':'));
    if v == "" {
      FrameOfNothing();
    } else if !IsFramed(Split(v, ':')) {
      OP.FrameIsAdded(v, OTel.PYTHON_PREFIX, OTel.PYTHON_MOUNT);
    }
  }

  lemma FrameOfNothing()
    ensures Split(OTel.PYTHON_PREFIX + ":" + OTel.PYTHON_MOUNT, ':') == [PythonFirst()] + [] + [PathOf("python")]
    ensures !IsFramed(Split("", ':')) && !OTel.IsFramed(Split("", ':'), OTel.PYTHON_PREFIX, OTel.PYTHON_MOUNT)
  {
    hide Split;
    OP.PythonPartsArePlain();
    TwoPaths(OTel.PYTHON_PREFIX, OTel.PYTHON_MOUNT);
    NoFields();
  }

  lemma TwoPaths(first: string, last: string)
    requires ':' !in first && ':' !in last
    ensures Split(first + ":" + last, ':') == [first] + [] + [last]
  {
    SplitOfPlain(first, ':');
    SplitOfPlain(last, ':');
    SplitOfConcat(first, last, ':');
  }

  lemma NodeValueIsAdded(v: string)
    ensures NodeAdded(v, OTel.NodeOptions(v))
  {
    hide IsWord, Fields, RequiresSome, RequiresAtMostOnce;
    OP.NodePartsAreWords();
    PairsAreRequires(Fields(v));
    FieldsOfAppended(v, OTel.REQUIRE);
    FieldsOfAppended(v + " " + OTel.REQUIRE, OTel.NODE_PATH);
    assert Fields(v) + [OTel.REQUIRE] + [OTel.NODE_PATH] == Fields(v) + [OTel.REQUIRE, OTel.NODE_PATH];
  }

  /** What injection makes of a value; a missing variable gets what an empty one would. */
  lemma ValueIsAdded(language: string, v: string)
    requires IsSupported(language)
    ensures var l := OTel.LibraryOf(language).value;
            Added(language, v, l.rewrite(v)) && l.missing == l.rewrite("")
  {
    hide JavaAdded, PythonAdded, NodeAdded, OTel.PythonPath, OTel.JavaOptions, OTel.NodeOptions;
    MissingIsEmpty();
    if language == JAVA {
      JavaValueIsAdded(v);
    } else if language == PYTHON {
      PythonValueIsAdded(v);
    } else {
      NodeValueIsAdded(v);
    }
  }

  lemma MissingIsEmpty()
    ensures OTel.JavaOptions("") == OTel.JAVA_OPTION
    ensures OTel.PythonPath("") == OTel.PYTHON_PREFIX + ":" + OTel.PYTHON_MOUNT
    ensures OTel.NodeOptions("") == " " + OTel.REQUIRE + " " + OTel.NODE_PATH
  {
    hide OTel.IsFramed, OTel.RequireCount;
    NoFields();
    OneIsNotFramed();
    assert "" + " " == " ";
  }

  lemma OneIsNotFramed()
    ensures !OTel.IsFramed([""], OTel.PYTHON_PREFIX, OTel.PYTHON_MOUNT)
    ensures OTel.RequireCount("") == 0
  {
  }

  // ----- containers -----

  /** A value that the library can be added to. */
  predicate Accepts(language: string, value: string) {
    if language == "java" then !Occurs(value, "dd-java-agent.jar")
    else if language == "python" then
      && !HasPath(value, "/datadog-lib")
      && (IsFramed(Split(value, ':')) || (!HasPath(value, PythonFirst()) && !HasPath(value, PathOf("python"))))
    else
      && !Occurs(value, "/datadog-lib") && !OTel.RequiresDatadog(Fields(value))
      && RequiresAtMostOnce(Fields(value))
      && (Occurs(value, "otel-auto-instrumentation-nodejs") ==>
            RequiresOnce(Fields(value)) && Count(value, "otel-auto-instrumentation-nodejs") == 1)
  }

  predicate HasPath(value: string, path: string) {
    path in Split(value, ':') || path + "/" in Split(value, ':')
  }

  lemma AcceptsIff(language: string, value: string)
    requires IsSupported(language)
    ensures OTel.LibraryOf(language).value.accepts(value) <==> Accepts(language, value)
  {
    hide Occurs, RequiresSome, RequiresAtMostOnce, Fields, IsFramed, OTel.IsFramed, OTel.RequiresDatadog, Count;
    ContainsIff(value, "dd-java-agent.jar");
    ContainsIff(value, "/datadog-lib");
    FramedIff(Split(value, ':'));
    NodeMountTrimmed();
    ContainsIff(value, "otel-auto-instrumentation-nodejs");
    PairsAreRequires(Fields(value));
  }

  lemma NodeMountTrimmed()
    ensures TrimPrefix(OTel.NODE_MOUNT, "/") == "otel-auto-instrumentation-nodejs"
  {
  }

  /** The forms in which an option can name the Datadog module, and nothing else. */
  lemma DatadogForms(field: string, target: string, rest: seq<string>)
    ensures !OTel.RequiresDatadog([])
    ensures field == "--require" || field == "-r" ==>
              !OTel.RequiresDatadog([field])
              && (OTel.RequiresDatadog([field, target] + rest) <==>
                    OTel.IsDatadogModule(target) || OTel.RequiresDatadog(rest))
    ensures forall option | option == "--require=" || option == "-r=" ::
              OTel.RequiresDatadog([option + target] + rest) <==>
                OTel.IsDatadogModule(target) || OTel.RequiresDatadog(rest)
    ensures field != "--require" && field != "-r" && !("--require=" <= field) && !("-r=" <= field) ==>
              (OTel.RequiresDatadog([field] + rest) <==> OTel.RequiresDatadog(rest))
  {
    hide OTel.IsDatadogModule;
    assert ([field, target] + rest)[2..] == rest && ([field, target] + rest)[1] == target;
    assert ([field] + rest)[1..] == rest;
    forall option | option == "--require=" || option == "-r="
      ensures OTel.RequiresDatadog([option + target] + rest) <==>
                OTel.IsDatadogModule(target) || OTel.RequiresDatadog(rest)
    {
      DatadogOption(option, target, rest);
    }
  }

  lemma DatadogOption(option: string, target: string, rest: seq<string>)
    requires option == "--require=" || option == "-r="
    ensures OTel.RequiresDatadog([option + target] + rest) <==>
              OTel.IsDatadogModule(target) || OTel.RequiresDatadog(rest)
  {
    hide OTel.IsDatadogModule;
    var field := option + target;
    assert ([field] + rest)[1..] == rest;
    assert field[|option|..] == target && option <= field;
    assert option == "-r=" ==> field[1] == 'r';
    assert option == "--require=" ==> field[1] == '-' && field[9] == '=' && |field| > 9;
  }

  predicate AllIn(s: string, cutset: string) {
    forall c <- s :: c in cutset
  }

  lemma {:induction false} TrimmedLeft(q: string, t: string, cutset: string)
    requires AllIn(q, cutset) && (t == "" || t[0] !in cutset)
    ensures TrimLeft(q + t, cutset) == t
  {
    if q == "" {
      assert q + t == t;
    } else {
      assert q[0] in q && (q + t)[1..] == q[1..] + t;
      assert forall c <- q[1..] :: c in q;
      TrimmedLeft(q[1..], t, cutset);
    }
  }

  lemma {:induction false} TrimmedRight(t: string, q: string, cutset: string)
    requires AllIn(q, cutset) && (t == "" || t[|t| - 1] !in cutset)
    ensures TrimRight(t + q, cutset) == t
  {
    if q == "" {
      assert t + q == t;
    } else {
      var init := q[..|q| - 1];
      assert q[|q| - 1] in q && (t + q)[..|t + q| - 1] == t + init;
      assert forall c <- init :: c in q;
      TrimmedRight(t, init, cutset);
    }
  }

  predicate EndsWith(s: string, end: string) {
    |end| <= |s| && s[|s| - |end|..] == end
  }

  /** The module by its name, with or without the extension, alone or below a node_modules directory. */
  predicate IsModulePath(t: string) {
    || t == "dd-trace/init" || t == "dd-trace/init" + ".js"
    || EndsWith(t, "/node_modules/" + "dd-trace/init") || EndsWith(t, "/node_modules/" + "dd-trace/init" + ".js")
  }

  /** Quotes around a path do not count. */
  lemma DatadogModuleIff(before: string, t: string, after: string)
    requires AllIn(before, "\"'") && AllIn(after, "\"'") && t != "" && t[0] !in "\"'" && t[|t| - 1] !in "\"'"
    ensures OTel.IsDatadogModule(before + (t + after)) <==> IsModulePath(t)
  {
    TrimmedLeft(before, t + after, "\"'");
    TrimmedRight(t, after, "\"'");
    ExtensionDoesNotCount(t, "dd-trace/init", "/node_modules/" + "dd-trace/init");
  }

  lemma EndsTogether(s: string, a: string, b: string)
    requires |b| <= |a|
    ensures EndsWith(s, a) ==> (EndsWith(s, b) <==> EndsWith(a, b))
  {
    if EndsWith(s, a) {
      assert a[|a| - |b|..] == s[|s| - |b|..];
    }
  }

  lemma ExtensionDoesNotCount(t: string, name: string, end: string)
    requires !EndsWith(name, ".js") && !EndsWith(end, ".js") && |end| > 3 && |name| > 3
    ensures var path := TrimSuffix(t, ".js");
            path == name || HasSuffix(path, end)
            <==> t == name || t == name + ".js" || EndsWith(t, end) || EndsWith(t, end + ".js")
  {
    EndsTogether(t, end, ".js");
    if EndsWith(t, ".js") {
      var path := t[..|t| - 3];
      assert t == path + ".js";
      BothExtended(path, end, ".js");
    } else {
      BothEnd(t, end, ".js");
      BothEnd(t, name, ".js");
    }
  }

  lemma BothExtended(path: string, end: string, extension: string)
    ensures EndsWith(path + extension, end + extension) <==> EndsWith(path, end)
  {
    var t := path + extension;
    if EndsWith(path, end) {
      assert t[|t| - |end + extension|..] == end + extension;
    }
    if EndsWith(t, end + extension) {
      assert path[|path| - |end|..] == t[|t| - |end + extension|..][..|end|];
    }
  }

  lemma BothEnd(t: string, end: string, extension: string)
    ensures EndsWith(t, end + extension) ==> EndsWith(t, extension)
    ensures t == end + extension ==> EndsWith(t, extension)
  {
    if EndsWith(t, end + extension) {
      assert t[|t| - |extension|..] == (end + extension)[|end|..];
    }
  }

  // ----- validation -----

  function TheMountOf(language: string): VolumeMount {
    VolumeMount("datakit-otel-auto-instrument", PathOf(language), "", "", "")
  }

  /** The library's name and path go together, whole, and the Datadog path is nowhere. */
  predicate MountFits(language: string, m: VolumeMount) {
    && m.mountPath != "/datadog-lib" && m.mountPath != "/datadog-lib" + "/"
    && (m.name == "datakit-otel-auto-instrument" <==> m.mountPath == PathOf(language))
    && (m.name == "datakit-otel-auto-instrument" ==> m.subPath == "" && m.subPathExpr == "")
  }

  /** The variable is there at most once, with a value of its own that the library can be added to. */
  predicate VariableFits(language: string, env: seq<EnvVar>) {
    forall i | 0 <= i < |env| && env[i].name == KeyOf(language) ::
      && env[i].valueFrom.None? && Accepts(language, env[i].value)
      && forall k | 0 <= k < |env| && k != i :: env[k].name != KeyOf(language)
  }

  /** What must hold of a pod, and of the configured image, before anything is injected. */
  predicate PodFits(language: string, image: string, pod: Pod) {
    && (exists c <- image :: !IsSpace(c))
    && pod.containers != []
    && !HasInitContainer(pod, "datakit-lib-init")
    && (forall v <- pod.volumes :: v.name == "datakit-otel-auto-instrument" ==> v.emptyDir)
    && (forall c <- pod.containers :: VariableFits(language, c.env) && forall m <- c.mounts :: MountFits(language, m))
  }

  lemma MountFitsIff(language: string, m: VolumeMount)
    ensures OTel.MountAccepted(m, PathOf(language)) <==> MountFits(language, m)
  {
    var path := m.mountPath;
    assert TrimSuffix(path, "/") == "/datadog-lib" <==> path == "/datadog-lib" || path == "/datadog-lib" + "/" by {
      if HasSuffix(path, "/") {
        assert path == path[..|path| - 1] + "/";
      }
    }
  }

  lemma VariableFitsIff(language: string, env: seq<EnvVar>)
    requires IsSupported(language)
    ensures var l := OTel.LibraryOf(language).value;
            OTel.EnvAccepted(env, l.key, l.accepts) <==> VariableFits(language, env)
  {
    hide Accepts;
    var l := OTel.LibraryOf(language).value;
    LibraryIs(language);
    forall v: string ensures l.accepts(v) <==> Accepts(language, v) {
      AcceptsIff(language, v);
    }
    hide OTel.LibraryOf;
  }

  /** An init container of the injection that is already there must be the one that would be added. */
  predicate InitFits(config: Config, pod: Pod, desired: Container) {
    forall c <- pod.initContainers :: c.name == "datakit-otel-lib-init" ==> OTel.InitCompatible(config, c, desired)
  }

  lemma PodFitsIff(config: Config, language: string, image: string, pod: Pod, desired: Container)
    requires IsSupported(language)
    ensures OTel.Accepted(config, image, pod, desired, OTel.LibraryOf(language).value)
            <==> PodFits(language, image, pod) && InitFits(config, pod, desired)
  {
    hide OTel.MountAccepted, OTel.EnvAccepted, MountFits, VariableFits, OTel.InitCompatible;
    var l := OTel.LibraryOf(language).value;
    LibraryIs(language);
    hide OTel.LibraryOf;
    forall c: Container ensures OTel.EnvAccepted(c.env, l.key, l.accepts) <==> VariableFits(language, c.env) {
      VariableFitsIff(language, c.env);
    }
    forall m: VolumeMount ensures OTel.MountAccepted(m, l.mountPath) <==> MountFits(language, m) {
      MountFitsIff(language, m);
    }
    NoInit(pod);
  }

  lemma NoInit(pod: Pod)
    ensures HasInitContainer(pod, "datakit-lib-init")
            <==> exists c <- pod.initContainers :: c.name == "datakit-lib-init"
  {
    if exists c <- pod.initContainers :: c.name == "datakit-lib-init" {
      var i :| 0 <= i < |pod.initContainers| && pod.initContainers[i].name == "datakit-lib-init";
      assert ContainerName(pod.initContainers[i]) == "datakit-lib-init";
    }
  }

  /** The comparison with an init container that is there, field by field. */
  lemma InitCompatibleIff(config: Config, existing: Container, desired: Container, mount: VolumeMount, at: nat)
    requires at < |desired.mounts| && desired.mounts[at] == mount && mount.name == "datakit-otel-auto-instrument"
    requires forall k | 0 <= k < |desired.mounts| && k != at :: desired.mounts[k].name != "datakit-otel-auto-instrument"
    ensures OTel.InitCompatible(config, existing, desired) <==>
              && existing.spec.image == desired.spec.image && existing.spec.command == desired.spec.command
              && existing.spec.args == desired.spec.args && existing.spec.pullPolicy == desired.spec.pullPolicy
              && existing.spec.resources == desired.spec.resources
              && (desired.spec.security.None?
                  || (existing.spec.security.Some?
                      && config.derives(desired.spec.security.value, existing.spec.security.value)))
              && (exists i | 0 <= i < |existing.mounts| :: existing.mounts[i] == mount &&
                    forall k | 0 <= k < |existing.mounts| && k != i ::
                      existing.mounts[k].name != mount.name && existing.mounts[k].mountPath != mount.mountPath)
  {
    assert OTel.OwnsOnly(desired.mounts, at);
    assert forall k | 0 <= k < |desired.mounts| && OTel.OwnsOnly(desired.mounts, k) :: k == at;
    assert OTel.MountedOnce(existing.mounts, mount) <==>
        exists i | 0 <= i < |existing.mounts| :: existing.mounts[i] == mount &&
          forall k | 0 <= k < |existing.mounts| && k != i ::
            existing.mounts[k].name != mount.name && existing.mounts[k].mountPath != mount.mountPath;
  }

  /** Without a mount of that name, or with two, nothing is compatible. */
  lemma OneMountIsNeeded(config: Config, existing: Container, desired: Container)
    requires (forall k | 0 <= k < |desired.mounts| :: desired.mounts[k].name != "datakit-otel-auto-instrument")
             || (exists j, k | 0 <= j < k < |desired.mounts| ::
                   desired.mounts[j].name == desired.mounts[k].name == "datakit-otel-auto-instrument")
    ensures !OTel.InitCompatible(config, existing, desired)
  {
  }

  // ----- users -----

  /** What the first container says, or else the pod. */
  function Effective<T>(own: Option<T>, inherited: Option<T>): Option<T> {
    if own.Some? then own else inherited
  }

  function NonRootOf(security: Option<SecurityContext>): Option<bool> {
    if security.None? then None else security.value.runAsNonRoot
  }

  function UserOf(security: Option<SecurityContext>): Option<int> {
    if security.None? then None else security.value.runAsUser
  }

  function FirstSecurity(pod: Pod): Option<SecurityContext> {
    if pod.containers == [] then None else pod.containers[0].spec.security
  }

  /** The init container would have to run as some other user than root, and no such user is named. */
  predicate NeedsUser(pod: Pod) {
    var own, inherited := FirstSecurity(pod), pod.identity.security;
    && Effective(NonRootOf(own), NonRootOf(inherited)).GetOr(false)
    && Effective(UserOf(own), UserOf(inherited)).GetOr(0) == 0
  }

  lemma NeedsUserIff(pod: Pod, rule: Rule, image: string, library: OTel.Library)
    ensures OTel.LacksNonRootUser(pod.identity.security,
                                  OTel.InitContainer(rule, image, library, pod.containers).spec.security)
            <==> NeedsUser(pod)
  {
  }

  lemma WithoutContextNoUserIsNeeded(pod: Pod)
    requires pod.identity.security.None? && FirstSecurity(pod).None?
    ensures !NeedsUser(pod)
  {
  }

  lemma NamedUserIsEnough(pod: Pod)
    requires FirstSecurity(pod).None? && UserOf(pod.identity.security) == Some(1000)
    ensures !NeedsUser(pod)
  {
  }

  lemma NonRootWithoutUserNeedsOne(pod: Pod)
    requires FirstSecurity(pod).None? && NonRootOf(pod.identity.security) == Some(true)
    requires UserOf(pod.identity.security).None?
    ensures NeedsUser(pod)
  {
  }

  lemma ContainerOverridesPod(pod: Pod)
    requires NonRootOf(pod.identity.security) == Some(true) && UserOf(pod.identity.security).None?
    ensures NonRootOf(FirstSecurity(pod)) == Some(false) || UserOf(FirstSecurity(pod)) == Some(1000) ==> !NeedsUser(pod)
    ensures UserOf(FirstSecurity(pod)) == Some(0) && NonRootOf(FirstSecurity(pod)).GetOr(true) ==> NeedsUser(pod)
  {
  }

  // ----- an injected pod -----

  predicate Copies(rule: Rule, image: string, pod: Pod, c: Container) {
    && c.name == "datakit-otel-lib-init" && c.mounts == [TheMountOf(rule.language)] && c.env == []
    && c.spec.image == image && c.spec.pullPolicy == rule.pullPolicy && c.spec.resources == rule.resources
    && c.spec.args == [] && c.spec.security == FirstSecurity(pod) && c.spec.other == ""
    && c.spec.command ==
       if rule.language == "java" then
         ["cp", "/javaagent.jar", "/otel-auto-instrumentation-java" + "/javaagent.jar"]
       else ["cp", "-r", "/autoinstrumentation/.", PathOf(rule.language)]
  }

  lemma InitContainerCopies(rule: Rule, image: string, pod: Pod)
    requires IsSupported(rule.language)
    ensures var library := OTel.LibraryOf(rule.language).value;
            Copies(rule, image, pod, OTel.InitContainer(rule, image, library, pod.containers))
  {
  }

  /** The variable of the language is made of the old one, the rule's arrive, and no other changes. */
  ghost predicate ContainerOutcome(language: string, incoming: seq<EnvVar>, was: Container, now: Container) {
    && now == was.(env := now.env, mounts := now.mounts)
    && now.mounts == AddNamed(was.mounts, MountName, TheMountOf(language))
    && Lookup(now.env, KeyOf(language)).Some?
    && Added(language, ValueOf(was.env, KeyOf(language)), ValueOf(now.env, KeyOf(language)))
    && (forall name :: name != KeyOf(language) ==>
          Lookup(now.env, name) ==
          if Lookup(was.env, name).Some? then Lookup(was.env, name) else Lookup(incoming, name))
  }

  lemma SetEnvLooksUp(language: string, env: seq<EnvVar>)
    requires IsSupported(language)
    ensures var l := OTel.LibraryOf(language).value;
            var r := OTel.SetEnv(env, l);
            && Lookup(r, l.key).Some? && Added(language, ValueOf(env, l.key), ValueOf(r, l.key))
            && forall name :: name != l.key ==> Lookup(r, name) == Lookup(env, name)
  {
    hide Added;
    var l := OTel.LibraryOf(language).value;
    ValueIsAdded(language, ValueOf(env, l.key));
    hide OTel.LibraryOf;
    var i := FirstNamed(env, EnvName, l.key, 0);
    var r := OTel.SetEnv(env, l);
    assert r[i].name == l.key && forall k | 0 <= k < i :: r[k] == env[k];
    DP.LookupAt(r, i, l.key);
    forall name | name != l.key ensures Lookup(r, name) == Lookup(env, name) {
      OthersLookUp(env, r, i, name);
    }
  }

  lemma OthersLookUp(env: seq<EnvVar>, r: seq<EnvVar>, i: nat, name: string)
    requires i < |r| && |env| <= |r| <= |env| + 1 && r[i].name != name && (i < |env| ==> env[i].name != name)
    requires (|r| > |env| ==> i == |env|) && forall k | 0 <= k < |r| && k != i :: r[k] == env[k]
    ensures Lookup(r, name) == Lookup(env, name)
  {
    var j := FirstNamed(env, EnvName, name, 0);
    if j < |env| {
      DP.LookupAt(r, j, name);
    } else {
      DP.LookupAbsent(r, name);
    }
  }

  /** With every name already there kept, the rule's variables arrive. */
  lemma {:induction false} RuleVariablesArrive(env: seq<EnvVar>, incoming: seq<EnvVar>, name: string)
    ensures Lookup(WithEnvVars(env, incoming, Some(KeepExisting)), name) ==
            if Lookup(env, name).Some? then Lookup(env, name) else Lookup(incoming, name)
    decreases |incoming|
  {
    hide WithEnvVar, Lookup;
    if incoming == [] {
      NothingToLookUp(name);
    } else {
      assert incoming == [incoming[0]] + incoming[1..];
      LookupCons(incoming[0], incoming[1..], name);
      KeptLooksUp(env, incoming[0], name);
      RuleVariablesArrive(WithEnvVar(env, incoming[0], Some(KeepExisting)), incoming[1..], name);
    }
  }

  lemma ContainerIsOutcome(language: string, incoming: seq<EnvVar>, was: Container)
    requires IsSupported(language)
    ensures var library := OTel.LibraryOf(language).value;
            ContainerOutcome(language, incoming, was, OP.WithKept(OTel.Instrumented(was, library), incoming))
  {
    hide Lookup, Added, OTel.SetEnv, AddNamed;
    var l := OTel.LibraryOf(language).value;
    LibraryIs(language);
    hide OTel.LibraryOf;
    SetEnvLooksUp(language, was.env);
    var env := OTel.SetEnv(was.env, l);
    forall name
      ensures Lookup(WithEnvVars(env, incoming, Some(KeepExisting)), name) ==
              if Lookup(env, name).Some? then Lookup(env, name) else Lookup(incoming, name)
    {
      RuleVariablesArrive(env, incoming, name);
    }
  }

  /** All that an injection changes in a pod. */
  ghost predicate PodOutcome(rule: Rule, image: string, was: Pod, now: Pod) {
    && now == was.(initContainers := now.initContainers, volumes := now.volumes, containers := now.containers)
    && now.volumes == AddNamed(was.volumes, VolumeName, Volume("datakit-otel-auto-instrument", true, ""))
    && |now.containers| == |was.containers|
    && (forall i | 0 <= i < |was.containers| ::
          ContainerOutcome(rule.language, VariablesOf(rule, was), was.containers[i], now.containers[i]))
    && exists c :: Copies(rule, image, was, c) && now.initContainers == AddNamed(was.initContainers, ContainerName, c)
  }

  lemma InjectionOutcome(pod: Pod, rule: Rule, image: string)
    requires IsSupported(rule.language)
    ensures var l := OTel.LibraryOf(rule.language).value;
            PodOutcome(rule, image, pod, OTel.Inject(pod, rule, OTel.InitContainer(rule, image, l, pod.containers), l))
  {
    hide ContainerOutcome, OTel.Instrumented, AddNamed, Copies, OTel.InitContainer, WithEnvVars;
    var l := OTel.LibraryOf(rule.language).value;
    InitContainerCopies(rule, image, pod);
    hide OTel.LibraryOf;
    var instrumented := OTel.InstrumentedAll(pod.containers, l);
    SameVariables(rule, pod, l);
    forall i | 0 <= i < |pod.containers|
      ensures ContainerOutcome(rule.language, VariablesOf(rule, pod), pod.containers[i],
                               OP.WithKept(instrumented[i], VariablesOf(rule, pod)))
    {
      ContainerIsOutcome(rule.language, VariablesOf(rule, pod), pod.containers[i]);
    }
  }

  lemma SameVariables(rule: Rule, pod: Pod, library: OTel.Library)
    ensures RuleEnvs(rule, OTel.InstrumentedAll(pod.containers, library)) == VariablesOf(rule, pod)
  {
    hide OTel.SetEnv;
  }
}
