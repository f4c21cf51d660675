/** The ordered cache of logging configurations, apis/logging/config/cache.go. */
module LoggingCache {
  import opened Options
  import opened Text
  import Selectors
  import LabelParser

  /** A ClusterLoggingConfig: its list of configurations is one opaque text. */
  datatype LoggingConfig = LoggingConfig(
    configs: string,
    namespaceRegex: string,
    podRegex: string,
    podLabelSelector: string,
    podTargetLabels: seq<string>)

  /** JSON encoding and regular expressions are library code.  Encoding text, flags and numbers cannot fail. */
  datatype Library = Library(
    marshal: string -> string,
    compiles: string -> bool,
    matches: (string, string) -> bool,
    rules: Selectors.Rules)

  datatype CachedConfig = CachedConfig(
    name: string,
    podTargetLabels: seq<string>,
    configs: string,
    namespaceRegex: Option<string>,
    podRegex: Option<string>,
    selector: Option<seq<Selectors.Requirement>>)

  /** A pattern that is empty or does not compile constrains nothing. */
  function Pattern(library: Library, text: string): Option<string> {
    if text != "" && library.compiles(text) then Some(text) else None
  }

  /** The order of the requirements makes no difference to matching, so they stay as parsed. */
  function LabelSelector(library: Library, text: string): Option<seq<Selectors.Requirement>> {
    if text != "" then LabelParser.ParseText(library.rules, text) else None
  }

  /** What the cache holds for a configuration. */
  function Compiled(library: Library, name: string, config: LoggingConfig): CachedConfig {
    CachedConfig(name, config.podTargetLabels, library.marshal(config.configs),
                 Pattern(library, config.namespaceRegex), Pattern(library, config.podRegex),
                 LabelSelector(library, config.podLabelSelector))
  }

  // ----- the list -----

  function Position(configs: seq<CachedConfig>, name: string): (i: nat)
    ensures i <= |configs| && (forall k | 0 <= k < i :: configs[k].name != name)
    ensures i < |configs| ==> configs[i].name == name
  {
    if configs == [] || configs[0].name == name then 0 else 1 + Position(configs[1..], name)
  }

  function Lookup(configs: seq<CachedConfig>, name: string): Option<CachedConfig> {
    var i := Position(configs, name);
    if i < |configs| then Some(configs[i]) else None
  }

  /** An entry keeps its place when it is replaced. */
  function Put(configs: seq<CachedConfig>, c: CachedConfig): seq<CachedConfig> {
    var i := Position(configs, c.name);
    if i < |configs| then configs[i := c] else configs + [c]
  }

  function Removed(configs: seq<CachedConfig>, name: string): seq<CachedConfig> {
    var i := Position(configs, name);
    if i < |configs| then configs[..i] + configs[i + 1..] else configs
  }

  predicate UniqueNames(configs: seq<CachedConfig>) {
    forall i, j | 0 <= i < j < |configs| :: configs[i].name != configs[j].name
  }

  lemma PositionIs(configs: seq<CachedConfig>, i: nat)
    requires i < |configs| && forall k | 0 <= k < i :: configs[k].name != configs[i].name
    ensures Position(configs, configs[i].name) == i
  {
  }

  lemma {:induction false} AbsentHasNoPosition(configs: seq<CachedConfig>, name: string)
    requires forall k | 0 <= k < |configs| :: configs[k].name != name
    ensures Lookup(configs, name) == None
  {
  }

  lemma PutStores(configs: seq<CachedConfig>, c: CachedConfig)
    requires UniqueNames(configs)
    ensures UniqueNames(Put(configs, c))
    ensures Lookup(Put(configs, c), c.name) == Some(c)
  {
    var i := Position(configs, c.name);
    PositionIs(Put(configs, c), i);
  }

  lemma PutKeepsOthers(configs: seq<CachedConfig>, c: CachedConfig, name: string)
    requires name != c.name
    ensures Lookup(Put(configs, c), name) == Lookup(configs, name)
  {
    var r := Put(configs, c);
    var j := Position(configs, name);
    if j < |configs| {
      PositionIs(r, j);
    } else {
      AbsentHasNoPosition(r, name);
    }
  }

  lemma RemovedIsGone(configs: seq<CachedConfig>, name: string)
    requires UniqueNames(configs)
    ensures UniqueNames(Removed(configs, name))
    ensures Lookup(Removed(configs, name), name) == None
  {
    AbsentHasNoPosition(Removed(configs, name), name);
  }

  lemma RemovalKeepsOthers(configs: seq<CachedConfig>, removed: string, name: string)
    requires name != removed
    ensures Lookup(Removed(configs, removed), name) == Lookup(configs, name)
  {
    var r := Removed(configs, removed);
    var i := Position(configs, removed);
    var j := Position(configs, name);
    if j < |configs| {
      PositionIs(r, if i < j then j - 1 else j);
    } else {
      AbsentHasNoPosition(r, name);
    }
  }

  function Names(configs: seq<CachedConfig>): seq<string> {
    seq(|configs|, i requires 0 <= i < |configs| => configs[i].name)
  }

  /** Names keep their order: an entry is replaced in its place, and a new one comes last. */
  lemma PutKeepsOrder(configs: seq<CachedConfig>, c: CachedConfig)
    ensures Names(Put(configs, c)) ==
            if c.name in Names(configs) then Names(configs) else Names(configs) + [c.name]
  {
    var i := Position(configs, c.name);
    if i < |configs| {
      assert Names(configs)[i] == c.name;
    }
  }

  /** This name at this place is taken out, and the others keep their order. */
  predicate Without(was: seq<string>, now: seq<string>, i: nat, name: string) {
    i < |was| && was[i] == name && now == was[..i] + was[i + 1..]
  }

  /** A removal takes one name out and leaves the others in their order. */
  lemma RemovalKeepsOrder(configs: seq<CachedConfig>, name: string)
    ensures var was, now := Names(configs), Names(Removed(configs, name));
            if name in was then exists i: nat :: Without(was, now, i, name) else now == was
  {
    var i := Position(configs, name);
    if i < |configs| {
      assert Names(configs)[i] == name;
      NamesConcat(configs[..i], configs[i + 1..]);
      assert Names(configs[..i]) == Names(configs)[..i] && Names(configs[i + 1..]) == Names(configs)[i + 1..];
      assert Without(Names(configs), Names(Removed(configs, name)), i, name);
    }
  }

  lemma NamesConcat(a: seq<CachedConfig>, b: seq<CachedConfig>)
    ensures Names(a + b) == Names(a) + Names(b)
  {
  }

  // ----- matching -----

  /** parseLabels: a later pair of the same key wins, and other parts are dropped. */
  function ParseLabels(parts: seq<string>): map<string, string> {
    if parts == [] then map[]
    else
      var before := ParseLabels(parts[..|parts| - 1]);
      var pair := Split(parts[|parts| - 1], '=');
      if |pair| == 2 then before[pair[0] := pair[1]] else before
  }

  function LabelsOf(text: string): map<string, string> {
    if text == "" then map[] else ParseLabels(Split(text, ','))
  }

  datatype Query = Query(podNamespace: string, podName: string, podLabels: string)

  /** A pod without labels passes every label selector. */
  predicate Fits(library: Library, c: CachedConfig, q: Query) {
    && (c.namespaceRegex.Some? ==> library.matches(c.namespaceRegex.value, q.podNamespace))
    && (c.podRegex.Some? ==> library.matches(c.podRegex.value, q.podName))
    && (c.selector.Some? && q.podLabels != "" ==>
          Selectors.SelectorMatches(library.rules, c.selector.value, LabelsOf(q.podLabels)))
  }

  /** The first entry that fits, in the order of the list. */
  function Find(library: Library, configs: seq<CachedConfig>, q: Query): (r: Option<CachedConfig>)
    ensures r.None? <==> forall c <- configs :: !Fits(library, c, q)
    ensures r.Some? ==> r.value in configs && Fits(library, r.value, q)
  {
    if configs == [] then None
    else if Fits(library, configs[0], q) then Some(configs[0])
    else Find(library, configs[1..], q)
  }

  method ParseLabelText(text: string) returns (tags: map<string, string>)
    ensures tags == LabelsOf(text)
  {
    tags := map[];
    if text == "" {
      return;
    }
    var parts := Split(text, ',');
    for i := 0 to |parts|
      invariant tags == ParseLabels(parts[..i])
    {
      assert parts[..i + 1][..i] == parts[..i];
      var pair := Split(parts[i], '=');
      if |pair| == 2 {
        tags := tags[pair[0] := pair[1]];
      }
    }
    assert parts[..|parts|] == parts;
  }

  class LoggingConfigCache {
    var configs: seq<CachedConfig>

    constructor ()
      ensures configs == []
    {
      configs := [];
    }

    method AddOrUpdateConfig(library: Library, name: string, config: LoggingConfig)
      modifies this
      ensures configs == Put(old(configs), Compiled(library, name, config))
    {
      var json := library.marshal(config.configs);
      var cached := CachedConfig(name, config.podTargetLabels, json, None, None, None);
      if config.namespaceRegex != "" && library.compiles(config.namespaceRegex) {
        cached := cached.(namespaceRegex := Some(config.namespaceRegex));
      }
      if config.podRegex != "" && library.compiles(config.podRegex) {
        cached := cached.(podRegex := Some(config.podRegex));
      }
      if config.podLabelSelector != "" {
        cached := cached.(selector := LabelParser.ParseText(library.rules, config.podLabelSelector));
      }
      for i := 0 to |configs|
        invariant configs == old(configs)
        invariant forall k | 0 <= k < i :: configs[k].name != name
      {
        if configs[i].name == name {
          PositionIs(configs, i);
          configs := configs[i := cached];
          return;
        }
      }
      configs := configs + [cached];
    }

    method RemoveConfig(name: string)
      modifies this
      ensures configs == Removed(old(configs), name)
    {
      for i := 0 to |configs|
        invariant configs == old(configs)
        invariant forall k | 0 <= k < i :: configs[k].name != name
      {
        if configs[i].name == name {
          PositionIs(configs, i);
          configs := configs[..i] + configs[i + 1..];
          return;
        }
      }
    }

    method FindMatchingConfigs(library: Library, q: Query) returns (r: Option<CachedConfig>)
      ensures r == Find(library, configs, q)
    {
      for i := 0 to |configs|
        invariant Find(library, configs[i..], q) == Find(library, configs, q)
      {
        assert configs[i..][1..] == configs[i + 1..];
        var fits := MatchesSelector(library, configs[i], q);
        if fits {
          return Some(configs[i]);
        }
      }
      return None;
    }

    method MatchesSelector(library: Library, c: CachedConfig, q: Query) returns (r: bool)
      ensures r == Fits(library, c, q)
    {
      if c.namespaceRegex.Some? && !library.matches(c.namespaceRegex.value, q.podNamespace) {
        return false;
      }
      if c.podRegex.Some? && !library.matches(c.podRegex.value, q.podName) {
        return false;
      }
      if c.selector.Some? && q.podLabels != "" {
        var labels := ParseLabelText(q.podLabels);
        r := Selectors.MatchesAll(library.rules, c.selector.value, labels);
        return;
      }
      return true;
    }
  }
}
