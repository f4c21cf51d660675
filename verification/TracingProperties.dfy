/** What the tracing step promises when a pod is admitted again. */
module TracingProperties {
  import opened Options
  import opened Pods
  import opened TracingRules
  import opened Tracing
  import DP = DDTraceProperties
  import OP = OTelProperties

  // ----- what injection leaves alone -----

  lemma NamesAdded<T>(items: seq<T>, nameOf: T -> string, item: T, name: string)
    ensures HasName(AddNamed(items, nameOf, item), nameOf, name) <==>
            HasName(items, nameOf, name) || name == nameOf(item)
  {
    var r := AddNamed(items, nameOf, item);
    if HasName(items, nameOf, name) {
      var i :| 0 <= i < |items| && nameOf(items[i]) == name;
      assert nameOf(r[i]) == name;
    } else if name == nameOf(item) {
      assert nameOf(r[|items|]) == name;
    }
  }

  lemma DDTraceInjected(config: Config, pod: Pod, selection: Selection, settings: seq<DDTrace.Setting>)
    requires DDTrace.Inject(config, pod, selection, settings).Some?
    ensures var r := DDTrace.Inject(config, pod, selection, settings).value;
            && r.identity == pod.identity && r.annotations == pod.annotations
            && HasInitContainer(r, DDTRACE_INIT)
            && (HasInitContainer(r, OTEL_INIT) <==> HasInitContainer(pod, OTEL_INIT))
  {
    hide DDTrace.InjectConfig, DDTrace.GlobalEnvsOnAll, DDTrace.CopyCommand, HasName, AddNamed;
    var c := DDTrace.InitContainer(selection.rule, ImageOf(config, selection));
    var started := pod.(initContainers := AddNamed(pod.initContainers, ContainerName, c));
    DP.ConfigTouchesContainersOnly(started, settings);
    NamesAdded(pod.initContainers, ContainerName, c, DDTRACE_INIT);
    NamesAdded(pod.initContainers, ContainerName, c, OTEL_INIT);
    InitNamesDiffer();
  }

  lemma InitNamesDiffer()
    ensures DDTRACE_INIT != OTEL_INIT
  {
    assert |DDTRACE_INIT| != |OTEL_INIT|;
  }

  lemma OTelInjected(pod: Pod, rule: Rule, desired: Container, library: OTel.Library)
    requires desired.name == OTEL_INIT
    ensures var r := OTel.Inject(pod, rule, desired, library);
            && r.identity == pod.identity && r.annotations == pod.annotations
            && HasInitContainer(r, OTEL_INIT)
            && (HasInitContainer(r, DDTRACE_INIT) <==> HasInitContainer(pod, DDTRACE_INIT))
  {
    hide OTel.InstrumentedAll, OTel.EnvsOnAll, HasName, AddNamed;
    NamesAdded(pod.initContainers, ContainerName, desired, DDTRACE_INIT);
    NamesAdded(pod.initContainers, ContainerName, desired, OTEL_INIT);
    InitNamesDiffer();
  }

  // ----- running the step twice -----

  /** Where DDTrace is already there only the Java repair acts, and once is enough. */
  lemma AgainAfterDDTrace(config: Config, requested: string, pod: Pod)
    requires HasInitContainer(pod, DDTRACE_INIT)
    ensures var once := InjectTracing(config, requested, pod);
            InjectTracing(config, requested, once) == once
  {
    hide DDTrace.RepairJava, SelectRule, HasName;
    RepairKeepsTheRest(pod);
    DP.RepairIsIdempotent(pod);
  }

  lemma RepairKeepsTheRest(pod: Pod)
    ensures DDTrace.RepairJava(pod) == pod.(containers := DDTrace.RepairJava(pod).containers)
  {
    hide DDTrace.Repaired;
  }

  /** A fresh DDTrace injection leaves nothing for the repair. */
  lemma AgainAfterFreshDDTrace(config: Config, requested: string, pod: Pod)
    requires !HasInitContainer(pod, DDTRACE_INIT) && DDTrace.Process(config, requested, pod).selected
    ensures var once := InjectTracing(config, requested, pod);
            InjectTracing(config, requested, once) == once
  {
    hide DDTrace.RepairJava, DDTrace.Inject, SelectRule, HasName, DDTrace.SettingsOf, DP.AllSettled, DP.WellChosen;
    var selection := DDTrace.MatchingRule(config, requested, pod).value;
    var settings := DDTrace.SettingsOf(selection.rule.language);
    if settings.Some? {
      var injected := DDTrace.Inject(config, pod, selection, settings.value);
      if injected.Some? {
        DDTraceInjected(config, pod, selection, settings.value);
        DP.SettingsAreWellChosen(selection.rule.language);
        DP.InjectedIsSettled(config, pod, selection, settings.value);
        if selection.rule.language == JAVA {
          JavaHasOneSetting();
          DP.CompleteNeedsNoRepair(injected.value);
        }
      }
    }
  }

  lemma JavaHasOneSetting()
    ensures DDTrace.SettingsOf(JAVA) == Some([DDTrace.JavaSetting()])
  {
  }

  /** An OpenTelemetry injection is complete, and refuses DDTrace from then on. */
  lemma AgainAfterOTel(config: Config, requested: string, pod: Pod)
    requires !HasInitContainer(pod, DDTRACE_INIT) && !DDTrace.Process(config, requested, pod).selected
    ensures var once := InjectTracing(config, requested, pod);
            InjectTracing(config, requested, once) == once
  {
    hide OTel.Inject, SelectRule, HasName, OTel.LibraryOf, OTel.LacksNonRootUser, OTel.CommonAccepted,
         OTel.EnvAccepted, OTel.InitContainer, DDTrace.Inject, DDTrace.SettingsOf, DDTrace.RepairJava;
    var once := OTel.Process(config, requested, pod);
    assert once == InjectTracing(config, requested, pod);
    if once != pod {
      var selection := OTel.MatchingRule(config, requested, pod).value;
      var library := OTel.LibraryOf(selection.rule.language).value;
      var first := OTel.InitContainer(selection.rule, ImageOf(config, selection), library, pod.containers);
      var second := OTel.InitContainer(selection.rule, ImageOf(config, selection), library, once.containers);
      assert once == OTel.Inject(pod, selection.rule, first, library);
      InitContainersAreNamed(selection.rule, ImageOf(config, selection), library, pod.containers);
      InitContainersAreNamed(selection.rule, ImageOf(config, selection), library, once.containers);
      OTelInjected(pod, selection.rule, first, library);
      assert !DDTrace.Process(config, requested, once).selected;
      OP.InjectTwice(selection.rule.language, pod, selection.rule, first, second);
    }
  }

  lemma InitContainersAreNamed(rule: Rule, image: string, library: OTel.Library, containers: seq<Container>)
    ensures OTel.InitContainer(rule, image, library, containers).name == OTEL_INIT
  {
  }

  /**
   With the same rules, admitting a pod that tracing has already injected changes nothing,
   whatever the language, the library and the pod.
   */
  lemma TracingIsIdempotent(config: Config, requested: string, pod: Pod)
    ensures var once := InjectTracing(config, requested, pod);
            InjectTracing(config, requested, once) == once
  {
    hide InjectTracing;
    if HasInitContainer(pod, DDTRACE_INIT) {
      AgainAfterDDTrace(config, requested, pod);
    } else if DDTrace.Process(config, requested, pod).selected {
      AgainAfterFreshDDTrace(config, requested, pod);
    } else {
      AgainAfterOTel(config, requested, pod);
    }
  }

  // ----- all or nothing -----

  /**
   Once a DDTrace rule has matched a fresh pod the injection is complete or leaves no trace, and
   OpenTelemetry is not tried; it is refused exactly for a variable that refers to a value elsewhere.
   */
  lemma DDTraceIsAllOrNothing(config: Config, requested: string, pod: Pod)
    requires !HasInitContainer(pod, DDTRACE_INIT)
    requires DDTrace.MatchingRule(config, requested, pod).Some?
    requires DDTrace.SettingsOf(DDTrace.MatchingRule(config, requested, pod).value.rule.language).Some?
    ensures var settings := DDTrace.SettingsOf(DDTrace.MatchingRule(config, requested, pod).value.rule.language).value;
            var r := InjectTracing(config, requested, pod);
            && (DP.SomeRefers(pod.containers, settings) ==> r == pod)
            && (!DP.SomeRefers(pod.containers, settings) ==>
                  HasInitContainer(r, DDTRACE_INIT) && DP.AllSettled(r.containers, settings))
  {
    hide DDTrace.SettingsOf, DDTrace.MatchingRule, DP.SomeRefers, DP.AllSettled, DP.WellChosen, DDTrace.InjectConfig,
         DDTrace.GlobalEnvsOnAll, HasName, DDTrace.CopyCommand;
    var selection := DDTrace.MatchingRule(config, requested, pod).value;
    var settings := DDTrace.SettingsOf(selection.rule.language).value;
    var c := DDTrace.InitContainer(selection.rule, ImageOf(config, selection));
    DP.SettingsAreWellChosen(selection.rule.language);
    DP.ConfigRefusedIff(pod.(initContainers := AddNamed(pod.initContainers, ContainerName, c)), settings);
    if DDTrace.Inject(config, pod, selection, settings).Some? {
      DDTraceInjected(config, pod, selection, settings);
      DP.InjectedIsSettled(config, pod, selection, settings);
    }
  }

  // ----- at most one library, over any run -----

  /** A pod that has one of the init containers keeps it and never gets the other. */
  lemma OneLibraryStays(config: Config, requested: string, pod: Pod)
    ensures var r := InjectTracing(config, requested, pod);
            && (HasInitContainer(pod, DDTRACE_INIT) || HasInitContainer(pod, OTEL_INIT) ==>
                  && (HasInitContainer(r, DDTRACE_INIT) <==> HasInitContainer(pod, DDTRACE_INIT))
                  && (HasInitContainer(r, OTEL_INIT) <==> HasInitContainer(pod, OTEL_INIT)))
            && !(HasInitContainer(r, DDTRACE_INIT) && HasInitContainer(r, OTEL_INIT)
                 && !HasInitContainer(pod, DDTRACE_INIT) && !HasInitContainer(pod, OTEL_INIT))
  {
    hide OTel.Inject, DDTrace.Inject, DDTrace.RepairJava, SelectRule, HasName, OTel.LibraryOf, DDTrace.SettingsOf,
         OTel.LacksNonRootUser, OTel.Accepted, OTel.InitContainer;
    RepairKeepsTheRest(pod);
    var matched := DDTrace.MatchingRule(config, requested, pod);
    if matched.Some? {
      var settings := DDTrace.SettingsOf(matched.value.rule.language);
      if settings.Some? && DDTrace.Inject(config, pod, matched.value, settings.value).Some? {
        DDTraceInjected(config, pod, matched.value, settings.value);
      }
    } else {
      var selection := OTel.MatchingRule(config, requested, pod);
      if selection.Some? && OTel.LibraryOf(selection.value.rule.language).Some? {
        var library := OTel.LibraryOf(selection.value.rule.language).value;
        var desired :=
          OTel.InitContainer(selection.value.rule, ImageOf(config, selection.value), library, pod.containers);
        InitContainersAreNamed(selection.value.rule, ImageOf(config, selection.value), library, pod.containers);
        OTelInjected(pod, selection.value.rule, desired, library);
      }
    }
  }

  /** One admission, with the rules of that moment. */
  datatype Invocation = Invocation(config: Config, requested: string)

  function InjectedByAll(pod: Pod, runs: seq<Invocation>): Pod {
    if runs == [] then pod
    else
      var last := runs[|runs| - 1];
      InjectTracing(last.config, last.requested, InjectedByAll(pod, runs[..|runs| - 1]))
  }

  /** Even when the rules change between admissions, no pod gets both libraries. */
  lemma {:induction false} NeverBothLibraries(pod: Pod, runs: seq<Invocation>)
    requires !(HasInitContainer(pod, DDTRACE_INIT) && HasInitContainer(pod, OTEL_INIT))
    ensures var r := InjectedByAll(pod, runs);
            !(HasInitContainer(r, DDTRACE_INIT) && HasInitContainer(r, OTEL_INIT))
  {
    hide InjectTracing, HasInitContainer;
    if runs != [] {
      var init, last := runs[..|runs| - 1], runs[|runs| - 1];
      NeverBothLibraries(pod, init);
      OneLibraryStays(last.config, last.requested, InjectedByAll(pod, init));
    }
  }

  /** The library a pod got first is the one it keeps. */
  lemma {:induction false} FirstLibraryIsFinal(pod: Pod, runs: seq<Invocation>, name: string)
    requires name == DDTRACE_INIT || name == OTEL_INIT
    requires HasInitContainer(pod, DDTRACE_INIT) || HasInitContainer(pod, OTEL_INIT)
    ensures HasInitContainer(InjectedByAll(pod, runs), name) <==> HasInitContainer(pod, name)
    decreases |runs|
  {
    hide InjectTracing, HasInitContainer;
    if runs != [] {
      var init, last := runs[..|runs| - 1], runs[|runs| - 1];
      FirstLibraryIsFinal(pod, init, DDTRACE_INIT);
      FirstLibraryIsFinal(pod, init, OTEL_INIT);
      OneLibraryStays(last.config, last.requested, InjectedByAll(pod, init));
    }
  }
}
