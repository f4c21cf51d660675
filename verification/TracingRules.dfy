/** The rules that select a tracing library for a pod, and the annotations that switch it. */
module TracingRules {
  import opened Options
  import opened Pods

  /**
   The environment of a rule is built for the name and the resources of the first container,
   which resource references point to.
   */
  datatype Rule = Rule(
    checkAnnotation: bool,
    language: string,
    image: string,
    pullPolicy: string,
    resources: string,
    phpLoaderFlavor: string,
    envs: (string, string) -> seq<EnvVar>)

  type RuleTable = (string, map<string, string>) -> seq<Rule>

  /** The rules that match a namespace and labels, and the library code that tracing calls. */
  datatype Config = Config(
    ddtrace: RuleTable,
    otel: RuleTable,
    imageWithVersion: (string, string) -> string,
    derives: (SecurityContext, SecurityContext) -> bool)

  /** The init containers that mark a pod as injected. */
  const DDTRACE_INIT := "datakit-lib-init"
  const OTEL_INIT := "datakit-otel-lib-init"

  predicate HasInitContainer(pod: Pod, name: string) {
    HasName(pod.initContainers, ContainerName, name)
  }

  const JAVA := "java"
  const PYTHON := "python"
  const PHP := "php"
  const NODEJS := "nodejs"

  /** strconv.ParseBool gives false for these; other texts are true or not a boolean at all. */
  const FALSE_TEXTS := ["0", "f", "F", "FALSE", "false", "False"]

  /** CheckAnnotationIsTrue: only an annotation that says false switches off. */
  predicate IsEnabled(annotations: map<string, string>, key: string) {
    key in annotations ==> annotations[key] !in FALSE_TEXTS
  }

  function EffectiveNamespace(requested: string, pod: Pod): string {
    if pod.identity.podNamespace != "" then pod.identity.podNamespace else requested
  }

  datatype Selection = Selection(rule: Rule, version: Option<string>)

  /** The first rule that needs no annotation or whose version annotation is present. */
  function SelectRule(rules: seq<Rule>, annotations: map<string, string>,
        versionKey: string -> string): Option<Selection> {
    if rules == [] then None
    else if !rules[0].checkAnnotation then Some(Selection(rules[0], None))
    else if versionKey(rules[0].language) in annotations
      then Some(Selection(rules[0], Some(annotations[versionKey(rules[0].language)])))
    else SelectRule(rules[1..], annotations, versionKey)
  }

  predicate IsEligible(rule: Rule, annotations: map<string, string>, versionKey: string -> string) {
    !rule.checkAnnotation || versionKey(rule.language) in annotations
  }

  /** The rules are tried in order, and a version counts only for a rule that asks for it. */
  lemma {:induction false} SelectedRuleIsFirstEligible(
      rules: seq<Rule>, annotations: map<string, string>, versionKey: string -> string)
    ensures var r := SelectRule(rules, annotations, versionKey);
            && (r.None? <==> forall i | 0 <= i < |rules| :: !IsEligible(rules[i], annotations, versionKey))
            && (r.Some? ==>
                  exists i | 0 <= i < |rules| ::
                    && rules[i] == r.value.rule && IsEligible(rules[i], annotations, versionKey)
                    && (forall k | 0 <= k < i :: !IsEligible(rules[k], annotations, versionKey))
                    && (r.value.version.Some? <==> rules[i].checkAnnotation)
                    && (r.value.version.Some? ==>
                          annotations[versionKey(rules[i].language)] == r.value.version.value))
  {
    if rules != [] && !IsEligible(rules[0], annotations, versionKey) {
      SelectedRuleIsFirstEligible(rules[1..], annotations, versionKey);
      var r := SelectRule(rules, annotations, versionKey);
      if r.Some? {
        var i :| 0 <= i < |rules| - 1 && rules[1..][i] == r.value.rule
                 && IsEligible(rules[1..][i], annotations, versionKey)
                 && (forall k | 0 <= k < i :: !IsEligible(rules[1..][k], annotations, versionKey));
        assert rules[i + 1] == rules[1..][i];
        forall k | 0 <= k < i + 1 ensures !IsEligible(rules[k], annotations, versionKey) {
          assert k > 0 ==> rules[k] == rules[1..][k - 1];
        }
      }
    }
  }

  /** An empty version leaves the image of the rule as it is. */
  function ImageOf(config: Config, selection: Selection): string {
    match selection.version
    case None => selection.rule.image
    case Some(version) =>
      if version == "" then selection.rule.image else config.imageWithVersion(selection.rule.image, version)
  }

  /** The variables of a rule for a pod; without containers nothing is injected. */
  function RuleEnvs(rule: Rule, containers: seq<Container>): seq<EnvVar> {
    if containers == [] then rule.envs("", "") else rule.envs(containers[0].name, containers[0].spec.resources)
  }
}
