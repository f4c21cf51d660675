/** Which pods the tracing step injects, with which library, rule and image, and which it leaves alone. */
module TracingOutcomes {
  import opened Options
  import opened Pods
  import opened PodManagers
  import opened TracingRules
  import opened Tracing
  import DP = DDTraceProperties
  import DO = DDTraceOutcomes
  import OO = OTelOutcomes

  // ----- which rule is selected -----

  /** Only an annotation that says false switches off. */
  predicate SwitchedOff(annotations: map<string, string>, key: string) {
    key in annotations && annotations[key] in ["0", "f", "F", "false", "False", "FALSE"]
  }

  /** The namespace of the pod, or of the request when the pod does not say. */
  function NamespaceOf(requested: string, pod: Pod): string {
    if pod.identity.podNamespace == "" then requested else pod.identity.podNamespace
  }

  /** The rule asks for no annotation, or the pod has the one it asks for. */
  predicate IsAsked(rule: Rule, annotations: map<string, string>, prefix: string) {
    !rule.checkAnnotation || prefix + rule.language + "-lib.version" in annotations
  }

  ghost predicate IsFirstAsked(rules: seq<Rule>, annotations: map<string, string>, prefix: string, rule: Rule) {
    exists i | 0 <= i < |rules| ::
      && rules[i] == rule && IsAsked(rule, annotations, prefix)
      && forall k | 0 <= k < i :: !IsAsked(rules[k], annotations, prefix)
  }

  /** The image of the rule, in the version of the annotation if the rule asks for one and it says something. */
  function ImageFor(config: Config, rule: Rule, annotations: map<string, string>, prefix: string): string {
    var key := prefix + rule.language + "-lib.version";
    if rule.checkAnnotation && key in annotations && annotations[key] != ""
    then config.imageWithVersion(rule.image, annotations[key]) else rule.image
  }

  lemma SelectionIs(config: Config, rules: seq<Rule>, annotations: map<string, string>, prefix: string,
        versionKey: string -> string, rule: Rule)
    requires forall language :: versionKey(language) == prefix + language + "-lib.version"
    ensures var r := SelectRule(rules, annotations, versionKey);
            && (IsFirstAsked(rules, annotations, prefix, rule) <==> r.Some? && r.value.rule == rule)
            && (IsFirstAsked(rules, annotations, prefix, rule) ==>
                  ImageOf(config, r.value) == ImageFor(config, rule, annotations, prefix))
  {
    hide SelectRule;
    SelectedRuleIsFirstEligible(rules, annotations, versionKey);
    var r := SelectRule(rules, annotations, versionKey);
    forall k | 0 <= k < |rules|
      ensures IsEligible(rules[k], annotations, versionKey) <==> IsAsked(rules[k], annotations, prefix)
    {
    }
    if IsFirstAsked(rules, annotations, prefix, rule) {
      var i :| 0 <= i < |rules| && rules[i] == rule && IsAsked(rule, annotations, prefix)
               && forall k | 0 <= k < i :: !IsAsked(rules[k], annotations, prefix);
      assert r.Some?;
      var j :| 0 <= j < |rules| && rules[j] == r.value.rule && IsEligible(rules[j], annotations, versionKey)
               && (forall k | 0 <= k < j :: !IsEligible(rules[k], annotations, versionKey))
               && (r.value.version.Some? <==> rules[j].checkAnnotation)
               && (r.value.version.Some? ==> annotations[versionKey(rules[j].language)] == r.value.version.value);
      assert i == j;
    }
  }

  ghost predicate DDTraceSelects(config: Config, requested: string, pod: Pod, rule: Rule) {
    && !SwitchedOff(pod.annotations, "admission.datakit/ddtrace.enabled")
    && !HasInitContainer(pod, "datakit-otel-lib-init")
    && IsFirstAsked(config.ddtrace(NamespaceOf(requested, pod), pod.identity.labels), pod.annotations,
                    "admission.datakit/", rule)
  }

  ghost predicate OTelSelects(config: Config, requested: string, pod: Pod, rule: Rule) {
    && !SwitchedOff(pod.annotations, "admission.datakit/otel.enabled")
    && IsFirstAsked(config.otel(NamespaceOf(requested, pod), pod.identity.labels), pod.annotations,
                    "admission.datakit/" + "otel-", rule)
  }

  function DDTraceImage(config: Config, rule: Rule, pod: Pod): string {
    ImageFor(config, rule, pod.annotations, "admission.datakit/")
  }

  function OTelImage(config: Config, rule: Rule, pod: Pod): string {
    ImageFor(config, rule, pod.annotations, "admission.datakit/" + "otel-")
  }

  lemma DDTraceSelectionIs(config: Config, requested: string, pod: Pod, rule: Rule)
    ensures var m := DDTrace.MatchingRule(config, requested, pod);
            && (DDTraceSelects(config, requested, pod, rule) <==> m.Some? && m.value.rule == rule)
            && (DDTraceSelects(config, requested, pod, rule) ==>
                  ImageOf(config, m.value) == DDTraceImage(config, rule, pod))
  {
    hide IsFirstAsked, SelectRule, ImageFor, ImageOf;
    var rules := config.ddtrace(NamespaceOf(requested, pod), pod.identity.labels);
    VersionKeys();
    SelectionIs(config, rules, pod.annotations, "admission.datakit/", DDTrace.VersionKey, rule);
  }

  lemma VersionKeys()
    ensures forall language :: DDTrace.VersionKey(language) == "admission.datakit/" + language + "-lib.version"
    ensures forall language ::
              OTel.VersionKey(language) == "admission.datakit/" + "otel-" + language + "-lib.version"
  {
  }

  lemma OTelSelectionIs(config: Config, requested: string, pod: Pod, rule: Rule)
    ensures var m := OTel.MatchingRule(config, requested, pod);
            && (OTelSelects(config, requested, pod, rule) <==> m.Some? && m.value.rule == rule)
            && (OTelSelects(config, requested, pod, rule) ==> ImageOf(config, m.value) == OTelImage(config, rule, pod))
  {
    hide IsFirstAsked, SelectRule, ImageFor, ImageOf;
    var rules := config.otel(NamespaceOf(requested, pod), pod.identity.labels);
    VersionKeys();
    SelectionIs(config, rules, pod.annotations, "admission.datakit/" + "otel-", OTel.VersionKey, rule);
  }

  // ----- DDTrace -----

  predicate DDTraceSupports(language: string) {
    language == "java" || language == "python" || language == "php" || language == "nodejs"
  }

  /** Some container has a variable of the language refer to a value elsewhere. */
  ghost predicate SomeRefersElsewhere(language: string, pod: Pod) {
    exists c, key :: c in pod.containers && key in DO.KeysOf(language) && DO.RefersElsewhere(c.env, key)
  }

  lemma SupportIs(language: string)
    ensures DDTrace.SettingsOf(language).Some? <==> DDTraceSupports(language)
  {
  }

  lemma RefersIs(language: string, pod: Pod)
    requires DDTrace.SettingsOf(language).Some?
    ensures DP.SomeRefers(pod.containers, DDTrace.SettingsOf(language).value) <==> SomeRefersElsewhere(language, pod)
  {
    hide Lookup, DDTrace.SettingsOf, DO.KeysOf;
    DO.SettingsHaveKeys(language);
    var settings := DDTrace.SettingsOf(language).value;
    if SomeRefersElsewhere(language, pod) {
      var c, key :| c in pod.containers && key in DO.KeysOf(language) && DO.RefersElsewhere(c.env, key);
      var s :| s in settings && s.key == key;
      assert DP.Refers(c.env, s);
    }
    if DP.SomeRefers(pod.containers, settings) {
      var c, s :| c in pod.containers && s in settings && DP.Refers(c.env, s);
      assert s.key in DO.KeysOf(language);
      assert DO.RefersElsewhere(c.env, s.key);
    }
  }

  /**
   A pod without the DDTrace init container for which DDTrace selects a rule: it is injected with that
   rule and its image, if the language is supported and the variables can be changed, and else it is
   left as it was.
   */
  lemma DDTraceDecides(config: Config, requested: string, pod: Pod, rule: Rule)
    requires !HasInitContainer(pod, "datakit-lib-init") && DDTraceSelects(config, requested, pod, rule)
    ensures var r := InjectTracing(config, requested, pod);
            if DDTraceSupports(rule.language) && !SomeRefersElsewhere(rule.language, pod)
            then DO.PodOutcome(rule, DDTraceImage(config, rule, pod), pod, r)
            else r == pod
  {
    hide DDTraceSelects, DDTrace.MatchingRule, DDTrace.SettingsOf, HasName, DDTrace.InjectConfig, DO.PodOutcome,
         SomeRefersElsewhere, DP.SomeRefers, DP.WellChosen, DDTrace.GlobalEnvsOnAll, DDTrace.CopyCommand, DDTraceImage,
         ImageOf;
    DDTraceSelectionIs(config, requested, pod, rule);
    var selection := DDTrace.MatchingRule(config, requested, pod).value;
    SupportIs(rule.language);
    if DDTraceSupports(rule.language) {
      RefersIs(rule.language, pod);
      var settings := DDTrace.SettingsOf(rule.language).value;
      DP.SettingsAreWellChosen(rule.language);
      var c := DDTrace.InitContainer(rule, ImageOf(config, selection));
      DP.ConfigRefusedIff(pod.(initContainers := AddNamed(pod.initContainers, ContainerName, c)), settings);
      if DDTrace.Inject(config, pod, selection, settings).Some? {
        DO.InjectionOutcome(config, pod, selection);
      }
    }
  }

  /** A pod that DDTrace has injected before: a selected Java rule repairs it, and nothing else happens. */
  lemma InjectedIsRepaired(config: Config, requested: string, pod: Pod)
    requires HasInitContainer(pod, "datakit-lib-init")
    ensures InjectTracing(config, requested, pod) ==
            if exists rule :: DDTraceSelects(config, requested, pod, rule) && rule.language == "java"
            then DDTrace.RepairJava(pod) else pod
  {
    hide DDTraceSelects, DDTrace.MatchingRule, HasName, DDTrace.RepairJava;
    var m := DDTrace.MatchingRule(config, requested, pod);
    if m.Some? {
      DDTraceSelectionIs(config, requested, pod, m.value.rule);
    }
    if rule :| DDTraceSelects(config, requested, pod, rule) && rule.language == "java" {
      DDTraceSelectionIs(config, requested, pod, rule);
    }
  }

  // ----- OpenTelemetry -----

  /**
   A pod without the DDTrace init container for which DDTrace selects no rule: OpenTelemetry injects it
   with the rule it selects and its image, if the language is supported, the pod and its init container
   of that name fit, and no user is missing; and else the pod is left as it was.
   */
  lemma OTelDecides(config: Config, requested: string, pod: Pod)
    requires !HasInitContainer(pod, "datakit-lib-init")
    requires forall rule :: !DDTraceSelects(config, requested, pod, rule)
    ensures var r := InjectTracing(config, requested, pod);
            && (forall rule | OTelSelects(config, requested, pod, rule) ::
                  if OTelInjects(config, rule, pod) then OO.PodOutcome(rule, OTelImage(config, rule, pod), pod, r)
                  else r == pod)
            && ((forall rule :: !OTelSelects(config, requested, pod, rule)) ==> r == pod)
  {
    hide DDTraceSelects, OTelSelects, DDTrace.MatchingRule, OTel.MatchingRule, HasName, OTelInjects, OO.PodOutcome,
         OTel.LibraryOf, OTel.LacksNonRootUser, OTel.Accepted, OTel.InitContainer, OTel.Inject, OTelImage;
    NothingSelected(config, requested, pod);
    var m := OTel.MatchingRule(config, requested, pod);
    assert InjectTracing(config, requested, pod) == OTel.Process(config, requested, pod);
    forall rule | OTelSelects(config, requested, pod, rule)
      ensures m.Some? && m.value.rule == rule
      ensures if OTelInjects(config, rule, pod)
              then OO.PodOutcome(rule, OTelImage(config, rule, pod), pod, InjectTracing(config, requested, pod))
              else InjectTracing(config, requested, pod) == pod
    {
      OTelSelectionIs(config, requested, pod, rule);
      OTelProcessIs(config, requested, pod, m.value);
    }
    if m.Some? {
      OTelSelectionIs(config, requested, pod, m.value.rule);
    }
  }

  lemma NothingSelected(config: Config, requested: string, pod: Pod)
    requires forall rule :: !DDTraceSelects(config, requested, pod, rule)
    ensures DDTrace.MatchingRule(config, requested, pod).None?
  {
    hide DDTraceSelects, DDTrace.MatchingRule;
    var m := DDTrace.MatchingRule(config, requested, pod);
    if m.Some? {
      DDTraceSelectionIs(config, requested, pod, m.value.rule);
    }
  }

  /** The init container that a rule would add to the pod. */
  ghost predicate InitFits(config: Config, rule: Rule, pod: Pod) {
    forall c | OO.Copies(rule, OTelImage(config, rule, pod), pod, c) :: OO.InitFits(config, pod, c)
  }

  ghost predicate OTelInjects(config: Config, rule: Rule, pod: Pod) {
    && OO.IsSupported(rule.language)
    && OO.PodFits(rule.language, rule.image, pod)
    && InitFits(config, rule, pod)
    && !OO.NeedsUser(pod)
  }

  lemma OTelProcessIs(config: Config, requested: string, pod: Pod, selection: Selection)
    requires OTel.MatchingRule(config, requested, pod) == Some(selection)
    requires ImageOf(config, selection) == OTelImage(config, selection.rule, pod)
    ensures var rule, r := selection.rule, OTel.Process(config, requested, pod);
            if OTelInjects(config, rule, pod) then OO.PodOutcome(rule, OTelImage(config, rule, pod), pod, r)
            else r == pod
  {
    hide OTel.MatchingRule, OO.PodOutcome, OTel.LacksNonRootUser, OTel.Accepted, OTel.Inject, OTel.LibraryOf,
         OTel.InitContainer, OO.PodFits, OO.NeedsUser, OTelImage, ImageOf, OO.Copies;
    var rule, image := selection.rule, OTelImage(config, selection.rule, pod);
    OO.LibraryIs(rule.language);
    if OO.IsSupported(rule.language) {
      var library := OTel.LibraryOf(rule.language).value;
      var desired := OTel.InitContainer(rule, image, library, pod.containers);
      OO.NeedsUserIff(pod, rule, image, library);
      OO.PodFitsIff(config, rule.language, rule.image, pod, desired);
      OO.InitContainerCopies(rule, image, pod);
      OnlyOneCopies(rule, image, pod, desired);
      OO.InjectionOutcome(pod, rule, image);
    }
  }

  lemma OnlyOneCopies(rule: Rule, image: string, pod: Pod, desired: Container)
    requires OO.Copies(rule, image, pod, desired)
    ensures forall c, config | OO.Copies(rule, image, pod, c) ::
              OO.InitFits(config, pod, c) <==> OO.InitFits(config, pod, desired)
  {
  }

  /** A fresh pod, without either init container, has the OpenTelemetry one afterwards exactly when it is injected. */
  lemma OTelInjectsIff(config: Config, requested: string, pod: Pod, rule: Rule)
    requires !HasInitContainer(pod, "datakit-lib-init") && !HasInitContainer(pod, "datakit-otel-lib-init")
    requires forall other :: !DDTraceSelects(config, requested, pod, other)
    requires OTelSelects(config, requested, pod, rule)
    ensures HasInitContainer(InjectTracing(config, requested, pod), "datakit-otel-lib-init")
            <==> OO.IsSupported(rule.language) && OO.PodFits(rule.language, rule.image, pod) && !OO.NeedsUser(pod)
  {
    hide DDTraceSelects, OTelSelects, OO.PodFits, OO.NeedsUser, OTelImage, InjectTracing, OO.ContainerOutcome;
    OTelDecides(config, requested, pod);
    NothingToFit(config, pod);
    var r := InjectTracing(config, requested, pod);
    if OTelInjects(config, rule, pod) {
      var c :| OO.Copies(rule, OTelImage(config, rule, pod), pod, c)
               && r.initContainers == AddNamed(pod.initContainers, ContainerName, c);
      assert ContainerName(r.initContainers[|pod.initContainers|]) == "datakit-otel-lib-init";
    }
  }

  lemma NothingToFit(config: Config, pod: Pod)
    requires !HasInitContainer(pod, "datakit-otel-lib-init")
    ensures forall desired :: OO.InitFits(config, pod, desired)
  {
    forall c | c in pod.initContainers ensures c.name != "datakit-otel-lib-init" {
      var i :| 0 <= i < |pod.initContainers| && pod.initContainers[i] == c;
      assert ContainerName(pod.initContainers[i]) == c.name;
    }
  }
}
