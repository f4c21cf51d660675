/** The order of variables when the DD_TAGS of a rule is merged into a container. */
module DDTagProperties {
  import opened Pods
  import opened PodManagers
  import opened DDTrace
  import DP = DDTraceProperties
  import PP = PairProperties

  predicate IsTags(v: EnvVar) {
    v.name == DD_TAGS
  }

  /** The merge applies to a variable of the rule that holds tags of its own. */
  predicate Merges(v: EnvVar) {
    IsTags(v) && v.value != "" && v.valueFrom.None?
  }

  /** At most one DD_TAGS, and one that holds its own value. */
  predicate OneTags(env: seq<EnvVar>) {
    && (forall i, j | 0 <= i < j < |env| :: !(IsTags(env[i]) && IsTags(env[j])))
    && (forall i | 0 <= i < |env| :: IsTags(env[i]) ==> env[i].valueFrom.None?)
  }

  /** Every variable of the name stands before this one. */
  predicate AllBefore(env: seq<EnvVar>, name: string, b: nat) {
    forall a | 0 <= a < |env| :: env[a].name == name ==> a < b
  }

  /** There are variables of the name, and all of them stand before the tags. */
  predicate BeforeTags(env: seq<EnvVar>, name: string) {
    HasName(env, EnvName, name) && exists b | 0 <= b < |env| :: IsTags(env[b]) && AllBefore(env, name, b)
  }

  // ----- one variable of the rule -----

  /** The tags found at t, if any, leave their place, and tags are appended. */
  lemma MergeShape(env: seq<EnvVar>, v: EnvVar) returns (t: nat)
    requires OneTags(env) && Merges(v)
    ensures t <= |env| && (forall k | 0 <= k < |env| :: IsTags(env[k]) <==> k == t)
    ensures var r := GlobalEnv(env, v);
            && r != [] && IsTags(r[|r| - 1]) && r[|r| - 1].valueFrom.None?
            && r[..|r| - 1] == env[..t] + (if t < |env| then env[t + 1..] else [])
  {
    hide Pairs.Append;
    t := FirstNamed(env, EnvName, DD_TAGS, 0);
    if t < |env| {
      assert IsTags(env[t]);
    }
  }

  lemma MergeMovesTagsToEnd(env: seq<EnvVar>, v: EnvVar)
    requires OneTags(env) && Merges(v)
    ensures var r := GlobalEnv(env, v);
            && OneTags(r) && r != [] && IsTags(r[|r| - 1])
            && (forall name :: name != DD_TAGS && HasName(env, EnvName, name) ==> BeforeTags(r, name))
  {
    hide GlobalEnv;
    var r := GlobalEnv(env, v);
    var t := MergeShape(env, v);
    forall k | 0 <= k < |r| - 1 ensures r[k] == if k < t then env[k] else env[k + 1] {
      assert r[k] == r[..|r| - 1][k];
    }
    forall name | name != DD_TAGS && HasName(env, EnvName, name) ensures BeforeTags(r, name) {
      var i :| 0 <= i < |env| && EnvName(env[i]) == name;
      var a := if i < t then i else i - 1;
      assert r[a] == env[i] && EnvName(r[a]) == name;
      assert AllBefore(r, name, |r| - 1);
    }
  }

  lemma StepKeepsOneTags(env: seq<EnvVar>, v: EnvVar)
    requires OneTags(env)
    ensures OneTags(GlobalEnv(env, v))
  {
    if Merges(v) {
      MergeMovesTagsToEnd(env, v);
    } else {
      DP.KeepingAppends(env, v);
    }
  }

  lemma StepKeepsBefore(env: seq<EnvVar>, v: EnvVar, name: string)
    requires OneTags(env) && name != DD_TAGS && BeforeTags(env, name)
    ensures BeforeTags(GlobalEnv(env, v), name)
  {
    hide Pairs.Append;
    if Merges(v) {
      MergeMovesTagsToEnd(env, v);
    } else {
      var r := GlobalEnv(env, v);
      var i :| 0 <= i < |env| && EnvName(env[i]) == name;
      var b :| 0 <= b < |env| && IsTags(env[b]) && AllBefore(env, name, b);
      DP.KeepingAppends(env, v);
      assert EnvName(r[i]) == name && IsTags(r[b]);
      KeptStayBefore(env, v, name, b);
    }
  }

  /** A name that is there is not appended again. */
  lemma KeptStayBefore(env: seq<EnvVar>, v: EnvVar, name: string, b: nat)
    requires !Merges(v) && name != DD_TAGS && HasName(env, EnvName, name) && AllBefore(env, name, b)
    ensures AllBefore(GlobalEnv(env, v), name, b)
  {
    hide Pairs.Append;
    DP.KeepingAppends(env, v);
    var r := GlobalEnv(env, v);
    forall a | 0 <= a < |r| && r[a].name == name ensures a < b {
      if a < |env| {
        assert r[a] == env[a];
      }
    }
  }

  lemma StepKeepsNames(env: seq<EnvVar>, v: EnvVar, name: string)
    requires OneTags(env) && name != DD_TAGS
    requires HasName(env, EnvName, name) || v.name == name
    ensures HasName(GlobalEnv(env, v), EnvName, name)
  {
    var r := GlobalEnv(env, v);
    if Merges(v) {
      MergeMovesTagsToEnd(env, v);
      assert BeforeTags(r, name);
    } else {
      DP.KeepingAppends(env, v);
      if HasName(env, EnvName, name) {
        var i :| 0 <= i < |env| && EnvName(env[i]) == name;
        assert EnvName(r[i]) == name;
      } else {
        assert EnvName(r[|env|]) == name;
      }
    }
  }

  // ----- all variables of the rule -----

  lemma {:induction false} AllKeepOneTags(env: seq<EnvVar>, incoming: seq<EnvVar>)
    requires OneTags(env)
    ensures OneTags(GlobalEnvs(env, incoming))
    decreases |incoming|
  {
    hide OneTags, GlobalEnv;
    if incoming != [] {
      StepKeepsOneTags(env, incoming[0]);
      AllKeepOneTags(GlobalEnv(env, incoming[0]), incoming[1..]);
    }
  }

  lemma {:induction false} AllKeepBefore(env: seq<EnvVar>, incoming: seq<EnvVar>, name: string)
    requires OneTags(env) && name != DD_TAGS && BeforeTags(env, name)
    ensures BeforeTags(GlobalEnvs(env, incoming), name)
    decreases |incoming|
  {
    hide OneTags, GlobalEnv, BeforeTags;
    if incoming != [] {
      StepKeepsOneTags(env, incoming[0]);
      StepKeepsBefore(env, incoming[0], name);
      AllKeepBefore(GlobalEnv(env, incoming[0]), incoming[1..], name);
    }
  }

  lemma {:induction false} AllNamesArrive(env: seq<EnvVar>, incoming: seq<EnvVar>, name: string)
    requires OneTags(env) && name != DD_TAGS
    requires HasName(env, EnvName, name) || HasName(incoming, EnvName, name)
    ensures HasName(GlobalEnvs(env, incoming), EnvName, name)
    decreases |incoming|
  {
    hide OneTags, GlobalEnv;
    if incoming != [] {
      var next := GlobalEnv(env, incoming[0]);
      StepKeepsOneTags(env, incoming[0]);
      if HasName(env, EnvName, name) || incoming[0].name == name {
        StepKeepsNames(env, incoming[0], name);
      } else {
        var i :| 0 <= i < |incoming| && EnvName(incoming[i]) == name;
        assert EnvName(incoming[1..][i - 1]) == name;
      }
      AllNamesArrive(next, incoming[1..], name);
    }
  }

  lemma {:induction false} GlobalEnvsConcat(env: seq<EnvVar>, a: seq<EnvVar>, b: seq<EnvVar>)
    ensures GlobalEnvs(env, a + b) == GlobalEnvs(GlobalEnvs(env, a), b)
    decreases |a|
  {
    hide GlobalEnv;
    if a == [] {
      assert a + b == b;
    } else {
      assert (a + b)[1..] == a[1..] + b;
      GlobalEnvsConcat(GlobalEnv(env, a[0]), a[1..], b);
    }
  }

  /**
   Kubernetes expands references to earlier variables only.  When the tags of a rule are merged,
   every variable that the rule lists before them stands before them in the container.
   */
  lemma TagsComeAfterTheirDependencies(env: seq<EnvVar>, before: seq<EnvVar>, tags: EnvVar, after: seq<EnvVar>)
    requires OneTags(env) && Merges(tags)
    ensures var r := GlobalEnvs(env, before + [tags] + after);
            && OneTags(r)
            && forall v <- before :: v.name != DD_TAGS ==> BeforeTags(r, v.name)
  {
    hide OneTags, BeforeTags;
    var first := GlobalEnvs(env, before);
    AllKeepOneTags(env, before);
    var merged := GlobalEnv(first, tags);
    MergeMovesTagsToEnd(first, tags);
    GlobalEnvsConcat(env, before, [tags]);
    assert [tags][1..] == [];
    assert GlobalEnvs(first, [tags]) == GlobalEnvs(merged, []) == merged;
    GlobalEnvsConcat(env, before + [tags], after);
    AllKeepOneTags(merged, after);
    forall v | v in before && v.name != DD_TAGS ensures BeforeTags(GlobalEnvs(merged, after), v.name) {
      var i :| 0 <= i < |before| && before[i] == v;
      assert EnvName(before[i]) == v.name;
      AllNamesArrive(env, before, v.name);
      AllKeepBefore(merged, after, v.name);
    }
  }

  // ----- what stays as it was -----

  function Others(env: seq<EnvVar>): seq<EnvVar> {
    if env == [] then []
    else (if IsTags(env[0]) then [] else [env[0]]) + Others(env[1..])
  }

  lemma {:induction false} OthersConcat(a: seq<EnvVar>, b: seq<EnvVar>)
    ensures Others(a + b) == Others(a) + Others(b)
  {
    if a == [] {
      assert a + b == b;
    } else {
      assert (a + b)[1..] == a[1..] + b;
      OthersConcat(a[1..], b);
    }
  }

  lemma OthersAroundTags(front: seq<EnvVar>, before: EnvVar, back: seq<EnvVar>, after: EnvVar)
    requires IsTags(before) && IsTags(after)
    ensures Others(front + [before] + back) == Others(front + back + [after])
  {
    OthersConcat(front + [before], back);
    OthersConcat(front, [before]);
    OthersConcat(front + back, [after]);
    OthersConcat(front, back);
    assert Others([before]) == Others([after]) == [];
  }

  lemma StepKeepsOthers(env: seq<EnvVar>, v: EnvVar)
    ensures Others(env) <= Others(GlobalEnv(env, v))
  {
    hide Pairs.Append, Others;
    var t := FirstNamed(env, EnvName, DD_TAGS, 0);
    var r := GlobalEnv(env, v);
    if Merges(v) && t < |env| && env[t].valueFrom.None? {
      OthersAroundTags(env[..t], env[t], env[t + 1..], r[|r| - 1]);
      assert env == env[..t] + [env[t]] + env[t + 1..];
    } else {
      if !IsTags(v) {
        DP.KeepingAppends(env, v);
      }
      assert r == env + r[|env|..];
      OthersConcat(env, r[|env|..]);
    }
  }

  /** No other variable of the container changes its value or its place among the others. */
  lemma {:induction false} OtherVariablesStay(env: seq<EnvVar>, incoming: seq<EnvVar>)
    ensures Others(env) <= Others(GlobalEnvs(env, incoming))
    decreases |incoming|
  {
    hide Others, GlobalEnv;
    if incoming != [] {
      StepKeepsOthers(env, incoming[0]);
      OtherVariablesStay(GlobalEnv(env, incoming[0]), incoming[1..]);
    }
  }

  /** Tags that the container holds itself keep their well-formed pairs, in front of what is added. */
  lemma {:induction false} TagsKeepTheirPairs(env: seq<EnvVar>, incoming: seq<EnvVar>)
    requires OneTags(env) && Lookup(env, DD_TAGS).Some?
    ensures var r := GlobalEnvs(env, incoming);
            && Lookup(r, DD_TAGS).Some?
            && Pairs.Parse(Lookup(env, DD_TAGS).value.value) <= Pairs.Parse(Lookup(r, DD_TAGS).value.value)
    decreases |incoming|
  {
    hide OneTags, GlobalEnv, Lookup, Pairs.Parse;
    if incoming != [] {
      StepKeepsOneTags(env, incoming[0]);
      StepKeepsPairs(env, incoming[0]);
      TagsKeepTheirPairs(GlobalEnv(env, incoming[0]), incoming[1..]);
    }
  }

  lemma StepKeepsPairs(env: seq<EnvVar>, v: EnvVar)
    requires OneTags(env) && Lookup(env, DD_TAGS).Some?
    ensures var r := GlobalEnv(env, v);
            && Lookup(r, DD_TAGS).Some?
            && Pairs.Parse(Lookup(env, DD_TAGS).value.value) <= Pairs.Parse(Lookup(r, DD_TAGS).value.value)
  {
    hide Pairs.Parse, Pairs.Append;
    var r := GlobalEnv(env, v);
    if Merges(v) {
      PP.AppendKeepsAndSettles(Lookup(env, DD_TAGS).value.value, v.value);
      MergeMovesTagsToEnd(env, v);
      DP.LookupAt(r, |r| - 1, DD_TAGS);
    } else {
      DP.KeepingAppends(env, v);
      DP.PrefixKeepsLookup(env, r, DD_TAGS);
    }
  }

  /** Tags that refer to a value elsewhere are left alone, and the rest is only appended. */
  lemma {:induction false} ReferencedTagsStay(env: seq<EnvVar>, incoming: seq<EnvVar>)
    requires Lookup(env, DD_TAGS).Some? && Lookup(env, DD_TAGS).value.valueFrom.Some?
    ensures env <= GlobalEnvs(env, incoming)
    decreases |incoming|
  {
    hide Lookup;
    if incoming != [] {
      var next := GlobalEnv(env, incoming[0]);
      ReferencedTagsStep(env, incoming[0]);
      DP.PrefixKeepsLookup(env, next, DD_TAGS);
      ReferencedTagsStay(next, incoming[1..]);
    }
  }

  lemma ReferencedTagsStep(env: seq<EnvVar>, v: EnvVar)
    requires Lookup(env, DD_TAGS).Some? && Lookup(env, DD_TAGS).value.valueFrom.Some?
    ensures env <= GlobalEnv(env, v)
  {
    DP.KeepingAppends(env, v);
  }
}
