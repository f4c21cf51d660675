/** The tracing step only adds to a pod, so the admission patch carries all of it. */
module TracingPatch {
  import opened Options
  import opened Pods
  import opened Json
  import opened JsonPatch
  import opened PodJson
  import opened PodPatch
  import opened PodPatchCorrectness
  import opened PodHistories
  import opened TracingRules
  import opened Tracing

  lemma SameContainersFollow(pod: Pod, containers: seq<Container>)
    requires |containers| == |pod.containers|
    requires forall i | 0 <= i < |containers| :: ContainerFollows(pod.containers[i], containers[i])
    ensures PodFollows(pod, pod.(containers := containers))
  {
    hide ContainerFollows;
  }

  lemma EnvGrew(c: Container, env: seq<EnvVar>)
    requires |c.env| <= |env|
    ensures ContainerFollows(c, c.(env := env))
  {
  }

  // ----- DDTrace -----

  lemma SettingFollows(pod: Pod, s: DDTrace.Setting)
    requires DDTrace.SetOnAll(pod.containers, s).Some?
    ensures PodFollows(pod, pod.(containers :=
                         WithMountOnAll(DDTrace.SetOnAll(pod.containers, s).value, DDTrace.LibraryMount())))
  {
    hide ContainerFollows, DDTrace.SetEnv, WithMount;
    var withEnv := DDTrace.SetOnAll(pod.containers, s).value;
    var mounted := WithMountOnAll(withEnv, DDTrace.LibraryMount());
    forall i | 0 <= i < |pod.containers| ensures ContainerFollows(pod.containers[i], mounted[i]) {
      var c := pod.containers[i];
      assert DDTrace.SetEnv(c.env, s).Some?;
      SetEnvGrows(c.env, s);
      EnvGrew(c, DDTrace.SetEnv(c.env, s).value);
      MountedFollows(withEnv[i], DDTrace.LibraryMount());
      ContainerFollowsTwice(c, withEnv[i], mounted[i]);
    }
    SameContainersFollow(pod, mounted);
  }

  lemma SetEnvGrows(env: seq<EnvVar>, s: DDTrace.Setting)
    requires DDTrace.SetEnv(env, s).Some?
    ensures |env| <= |DDTrace.SetEnv(env, s).value|
  {
  }

  lemma {:induction false} ConfigFollows(pod: Pod, settings: seq<DDTrace.Setting>)
    requires DDTrace.InjectConfig(pod, settings).Some?
    ensures PodFollows(pod, DDTrace.InjectConfig(pod, settings).value)
    decreases |settings|
  {
    hide PodFollows, DDTrace.SetOnAll, WithMountOnAll;
    if settings == [] {
      PodFollowsItself(pod);
    } else {
      SettingFollows(pod, settings[0]);
      var next := pod.(containers :=
                         WithMountOnAll(DDTrace.SetOnAll(pod.containers, settings[0]).value, DDTrace.LibraryMount()));
      ConfigFollows(next, settings[1..]);
      PodFollowsTwice(pod, next, DDTrace.InjectConfig(next, settings[1..]).value);
    }
  }

  lemma {:induction false} GlobalEnvsGrow(env: seq<EnvVar>, incoming: seq<EnvVar>)
    ensures |env| <= |DDTrace.GlobalEnvs(env, incoming)|
    decreases |incoming|
  {
    if incoming != [] {
      GlobalEnvsGrow(DDTrace.GlobalEnv(env, incoming[0]), incoming[1..]);
    }
  }

  lemma GlobalEnvsFollow(pod: Pod, incoming: seq<EnvVar>)
    ensures PodFollows(pod, pod.(containers := DDTrace.GlobalEnvsOnAll(pod.containers, incoming)))
  {
    hide ContainerFollows, DDTrace.GlobalEnvs;
    var containers := DDTrace.GlobalEnvsOnAll(pod.containers, incoming);
    forall i | 0 <= i < |containers| ensures ContainerFollows(pod.containers[i], containers[i]) {
      GlobalEnvsGrow(pod.containers[i].env, incoming);
      EnvGrew(pod.containers[i], containers[i].env);
    }
    SameContainersFollow(pod, containers);
  }

  lemma DDTraceFollows(config: Config, pod: Pod, selection: Selection, settings: seq<DDTrace.Setting>)
    requires DDTrace.Inject(config, pod, selection, settings).Some?
    ensures PodFollows(pod, DDTrace.Inject(config, pod, selection, settings).value)
  {
    hide PodFollows, DDTrace.InjectConfig, DDTrace.GlobalEnvsOnAll, AddNamed, DDTrace.CopyCommand, RuleEnvs;
    var c := DDTrace.InitContainer(selection.rule, ImageOf(config, selection));
    var started := Mutated(pod, AddInitContainer(c));
    MutationFollows(pod, AddInitContainer(c));
    ConfigFollows(started, settings);
    var configured := DDTrace.InjectConfig(started, settings).value;
    PodFollowsTwice(pod, started, configured);
    var withVolume := Mutated(configured, AddVolume(DDTrace.LibraryVolume()));
    MutationFollows(configured, AddVolume(DDTrace.LibraryVolume()));
    PodFollowsTwice(pod, configured, withVolume);
    GlobalEnvsFollow(withVolume, RuleEnvs(selection.rule, configured.containers));
    PodFollowsTwice(pod, withVolume, DDTrace.Inject(config, pod, selection, settings).value);
  }

  lemma RepairFollows(pod: Pod)
    ensures PodFollows(pod, DDTrace.RepairJava(pod))
  {
    hide ContainerFollows, DDTrace.Repaired;
    PodFollowsItself(pod);
    if DDTrace.CanRepair(pod) {
      var repaired := DDTrace.RepairJava(pod).containers;
      forall i | 0 <= i < |repaired| ensures ContainerFollows(pod.containers[i], repaired[i]) {
        RepairedFollows(pod.containers[i]);
      }
      SameContainersFollow(pod, repaired);
    }
  }

  lemma RepairedFollows(c: Container)
    ensures ContainerFollows(c, DDTrace.Repaired(c))
  {
    hide ContainerFollows;
    ContainerFollowsItself(c);
    if DDTrace.SetEnv(c.env, DDTrace.JavaSetting()).Some? {
      SetEnvGrows(c.env, DDTrace.JavaSetting());
      EnvGrew(c, DDTrace.SetEnv(c.env, DDTrace.JavaSetting()).value);
    }
  }

  // ----- OpenTelemetry -----

  lemma InstrumentedFollows(c: Container, library: OTel.Library, incoming: seq<EnvVar>)
    ensures ContainerFollows(c, OTel.EnvsOnAll([OTel.Instrumented(c, library)], incoming)[0])
  {
    hide ContainerFollows, WithMount, WithEnvVars;
    var withEnv := c.(env := OTel.SetEnv(c.env, library));
    EnvGrew(c, withEnv.env);
    MountedFollows(withEnv, OTel.LibraryMount(library.mountPath));
    var mounted := OTel.Instrumented(c, library);
    ContainerFollowsTwice(c, withEnv, mounted);
    UpdatedEnvStays(mounted.env, incoming, Some(KeepExisting));
    EnvGrew(mounted, WithEnvVars(mounted.env, incoming, Some(KeepExisting)));
    ContainerFollowsTwice(c, mounted, mounted.(env := WithEnvVars(mounted.env, incoming, Some(KeepExisting))));
  }

  lemma OTelFollows(pod: Pod, rule: Rule, desired: Container, library: OTel.Library)
    ensures PodFollows(pod, OTel.Inject(pod, rule, desired, library))
  {
    hide PodFollows, OTel.Instrumented, AddNamed, ContainerFollows, WithEnvVars;
    var started := Mutated(pod, AddInitContainer(desired));
    MutationFollows(pod, AddInitContainer(desired));
    var withVolume := Mutated(started, AddVolume(OTel.LibraryVolume()));
    MutationFollows(started, AddVolume(OTel.LibraryVolume()));
    PodFollowsTwice(pod, started, withVolume);
    var injected := OTel.Inject(pod, rule, desired, library);
    var incoming := RuleEnvs(rule, OTel.InstrumentedAll(pod.containers, library));
    forall i | 0 <= i < |pod.containers| ensures ContainerFollows(pod.containers[i], injected.containers[i]) {
      InstrumentedFollows(pod.containers[i], library, incoming);
    }
    SameContainersFollow(withVolume, injected.containers);
    PodFollowsTwice(pod, withVolume, injected);
  }

  // ----- the step -----

  lemma TracingFollows(config: Config, requested: string, pod: Pod)
    ensures PodFollows(pod, InjectTracing(config, requested, pod))
  {
    hide PodFollows, DDTrace.Inject, DDTrace.RepairJava, OTel.Inject, SelectRule, OTel.Accepted, OTel.InitContainer,
         DDTrace.SettingsOf, OTel.LibraryOf, HasName, OTel.LacksNonRootUser;
    PodFollowsItself(pod);
    RepairFollows(pod);
    var matched := DDTrace.MatchingRule(config, requested, pod);
    if matched.Some? {
      var settings := DDTrace.SettingsOf(matched.value.rule.language);
      if settings.Some? && DDTrace.Inject(config, pod, matched.value, settings.value).Some? {
        DDTraceFollows(config, pod, matched.value, settings.value);
      }
    } else {
      var selection := OTel.MatchingRule(config, requested, pod);
      if selection.Some? && OTel.LibraryOf(selection.value.rule.language).Some? {
        var library := OTel.LibraryOf(selection.value.rule.language).value;
        OTelFollows(pod, selection.value.rule,
                    OTel.InitContainer(selection.value.rule, ImageOf(config, selection.value), library, pod.containers),
                    library);
      }
    }
  }

  /** The patch that answers an admission rebuilds the traced pod from any document of the submitted one. */
  lemma TracingReachesTheApiServer(codecs: Codecs, doc: Json, config: Config, requested: string, pod: Pod)
    requires Faithful(codecs) && Describes(codecs, doc, pod)
    requires DistinctNames(pod.containers, ContainerName)
    ensures var r := ApplyPatch(doc, Spell("", PodEdits(codecs, pod, InjectTracing(config, requested, pod))));
            && r.Some?
            && Describes(codecs, r.value, InjectTracing(config, requested, pod))
            && Narrow(doc, r.value, |pod.containers|)
  {
    hide Faithful, Describes, Narrow, PodFollows, PatchedPod, ApplyPatch, Spell, PodEdits, InjectTracing;
    TracingFollows(config, requested, pod);
    PodRebuiltIff(pod, InjectTracing(config, requested, pod));
    PatchApplies(codecs, doc, pod, InjectTracing(config, requested, pod));
  }
}
