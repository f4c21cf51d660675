/** What a query for a pod finds, told from the stored configurations and the text of the pod's labels. */
module LoggingQueries {
  import opened Options
  import opened Text
  import opened LoggingCache
  import opened LoggingWatcher
  import Selectors
  import LabelParser
  import ST = SelectorTexts
  import SM = SelectorMeaning

  // ----- the labels of a query -----

  datatype Pair = Pair(key: string, value: string)

  predicate IsPlainPair(p: Pair) {
    ',' !in p.key && '=' !in p.key && ',' !in p.value && '=' !in p.value
  }

  function PairText(p: Pair): string {
    p.key + "=" + p.value
  }

  function PairTexts(pairs: seq<Pair>): seq<string> {
    seq(|pairs|, i requires 0 <= i < |pairs| => PairText(pairs[i]))
  }

  /** The last pair of a key counts. */
  function LabelsIn(pairs: seq<Pair>): map<string, string> {
    if pairs == [] then map[] else LabelsIn(pairs[..|pairs| - 1])[pairs[|pairs| - 1].key := pairs[|pairs| - 1].value]
  }

  lemma PairSplits(p: Pair)
    requires IsPlainPair(p)
    ensures Split(PairText(p), '=') == [p.key, p.value] && ',' !in PairText(p) && PairText(p) != ""
  {
    SplitOfConcat(p.key, p.value, '=');
    SplitOfPlain(p.key, '=');
    SplitOfPlain(p.value, '=');
  }

  lemma {:induction false} PairTextsParse(pairs: seq<Pair>)
    requires forall p <- pairs :: IsPlainPair(p)
    ensures ParseLabels(PairTexts(pairs)) == LabelsIn(pairs)
  {
    if pairs != [] {
      var init := pairs[..|pairs| - 1];
      assert PairTexts(pairs)[..|pairs| - 1] == PairTexts(init);
      assert forall p <- init :: p in pairs;
      PairTextsParse(init);
      PairSplits(pairs[|pairs| - 1]);
    }
  }

  /** A text of pairs with commas between them gives exactly these labels. */
  lemma WrittenLabels(pairs: seq<Pair>)
    requires forall p <- pairs :: IsPlainPair(p)
    ensures LabelsOf(Join(PairTexts(pairs), ",")) == LabelsIn(pairs)
  {
    if pairs != [] {
      forall text | text in PairTexts(pairs) ensures ',' !in text && text != "" {
        var i :| 0 <= i < |pairs| && PairTexts(pairs)[i] == text;
        PairSplits(pairs[i]);
      }
      assert PairTexts(pairs)[0] in PairTexts(pairs);
      SplitOfJoin(PairTexts(pairs), ',');
      PairTextsParse(pairs);
    }
  }

  /** Parts without exactly one equals sign say nothing. */
  lemma OtherPartsSayNothing(parts: seq<string>, part: string)
    requires |Split(part, '=')| != 2
    ensures ParseLabels(parts + [part]) == ParseLabels(parts)
  {
    assert (parts + [part])[..|parts|] == parts;
  }

  /** Of several entries that fit the first is found. */
  lemma {:induction false} FirstFitIsFound(library: Library, configs: seq<CachedConfig>, q: Query, i: nat)
    requires i < |configs| && Fits(library, configs[i], q) && forall k | 0 <= k < i :: !Fits(library, configs[k], q)
    ensures Find(library, configs, q) == Some(configs[i])
  {
    hide Fits;
    if i > 0 {
      FirstFitIsFound(library, configs[1..], q, i - 1);
    }
  }

  // ----- which configurations a query asks for -----

  /** The configuration is meant for the pod: each pattern it has, and that compiles, must match. */
  predicate Selects(library: Library, config: LoggingConfig, q: Query) {
    var selector := LabelParser.ParseText(library.rules, config.podLabelSelector);
    && (config.namespaceRegex == "" || !library.compiles(config.namespaceRegex)
        || library.matches(config.namespaceRegex, q.podNamespace))
    && (config.podRegex == "" || !library.compiles(config.podRegex) || library.matches(config.podRegex, q.podName))
    && (config.podLabelSelector == "" || selector.None? || q.podLabels == ""
        || Selectors.SelectorMatches(library.rules, selector.value, LabelsOf(q.podLabels)))
  }

  lemma FitsIfSelected(library: Library, name: string, config: LoggingConfig, q: Query)
    ensures Fits(library, Compiled(library, name, config), q) <==> Selects(library, config, q)
  {
    hide LabelsOf, LabelParser.ParseText;
  }

  /** What is found for a stored configuration: its name, its encoding and its target labels. */
  predicate Shown(library: Library, name: string, config: LoggingConfig, found: CachedConfig) {
    && found.name == name && found.configs == library.marshal(config.configs)
    && found.podTargetLabels == config.podTargetLabels
  }

  /**
   With nothing pending, a query finds something if and only if some stored configuration is meant
   for the pod, and then it finds one of those.
   */
  lemma QueryFindsStored(library: Library, s: State, q: Query)
    requires Inv(library, s) && Quiescent(s)
    ensures var r := Find(library, s.cache, q);
            && (r.Some? <==> exists key <- s.store :: Selects(library, s.store[key], q))
            && (r.Some? ==>
                  && r.value.name in s.store && Selects(library, s.store[r.value.name], q)
                  && Shown(library, r.value.name, s.store[r.value.name], r.value))
  {
    hide Fits, Selects, Inv, LabelSelector, Pattern;
    QuietQueryAnswersFromStore(library, s, q);
    forall key | key in s.store
      ensures Fits(library, Compiled(library, key, s.store[key]), q) <==> Selects(library, s.store[key], q)
    {
      FitsIfSelected(library, key, s.store[key], q);
    }
  }

  /** The configuration with these patterns and nothing else. */
  function Plain(configs: string): LoggingConfig {
    LoggingConfig(configs, "", "", "", [])
  }

  /** The query finds the one configuration that is stored. */
  ghost predicate FindsOnly(library: Library, s: State, q: Query) {
    Find(library, s.cache, q).Some?
  }

  /**
   A single configuration with one kind of pattern is found by that kind alone: without patterns
   always, with a namespace pattern by the namespace, with a pod pattern by the name of the pod.
   */
  lemma OnePatternDecides(library: Library, s: State, q: Query, key: string, configs: string, pattern: string)
    requires Inv(library, s) && Quiescent(s) && pattern != "" && library.compiles(pattern)
    ensures s.store == map[key := Plain(configs)] ==> FindsOnly(library, s, q)
    ensures s.store == map[key := Plain(configs).(namespaceRegex := pattern)] ==>
              (FindsOnly(library, s, q) <==> library.matches(pattern, q.podNamespace))
    ensures s.store == map[key := Plain(configs).(podRegex := pattern)] ==>
              (FindsOnly(library, s, q) <==> library.matches(pattern, q.podName))
  {
    hide Inv, Find, Quiescent;
    QueryFindsStored(library, s, q);
    assert key in map[key := Plain(configs)];
    if key in s.store {
      assert Selects(library, s.store[key], q) ==> FindsOnly(library, s, q);
    }
  }

  /**
   A single configuration with a label selector is found by the labels: by those that satisfy every
   requirement as it is written, and by a pod without labels.
   */
  lemma SelectorDecides(library: Library, s: State, q: Query, key: string, configs: string,
        ws: seq<Selectors.Requirement>, pairs: seq<Pair>)
    requires Inv(library, s) && Quiescent(s)
    requires ws != [] && forall w <- ws :: ST.WellWritten(w) && ST.Accepts(library.rules, w)
    requires pairs != [] && forall p <- pairs :: IsPlainPair(p)
    requires s.store == map[key := Plain(configs).(podLabelSelector := Join(ST.AllWritten(ws), ","))]
    requires q.podLabels == Join(PairTexts(pairs), ",")
    ensures FindsOnly(library, s, q) <==> forall w <- ws :: SM.Satisfied(library.rules, w, LabelsIn(pairs))
  {
    hide Inv, Find, Quiescent, ST.WellWritten, ST.Accepts, SM.Satisfied, LabelParser.ParseText,
         Selectors.SelectorMatches, LabelsOf, LabelsIn, ST.AllWritten, Join;
    QueryFindsStored(library, s, q);
    SM.TextMatchesIff(library.rules, ws, LabelsIn(pairs));
    WrittenLabels(pairs);
    TextsAreNotEmpty(pairs, ws);
    assert key in s.store;
    assert Selects(library, s.store[key], q) <==> FindsOnly(library, s, q);
  }

  lemma TextsAreNotEmpty(pairs: seq<Pair>, ws: seq<Selectors.Requirement>)
    requires pairs != [] && ws != [] && forall w <- ws :: ST.WellWritten(w)
    ensures Join(PairTexts(pairs), ",") != "" && Join(ST.AllWritten(ws), ",") != ""
  {
    assert PairTexts(pairs)[0] != "";
    assert ws[0] in ws && ST.Written(ws[0]) != "";
  }

  /** A pod without labels is found by every label selector. */
  lemma NoLabelsPass(library: Library, s: State, q: Query, key: string, configs: string, selector: string)
    requires Inv(library, s) && Quiescent(s) && q.podLabels == ""
    requires s.store == map[key := Plain(configs).(podLabelSelector := selector)]
    ensures FindsOnly(library, s, q)
  {
    hide Inv, Find, Quiescent, LabelParser.ParseText;
    QueryFindsStored(library, s, q);
    assert key in s.store && Selects(library, s.store[key], q);
  }
}
