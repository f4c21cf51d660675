/**
 The admission patch of apis/webhook/pod_patch.go: which operations it holds.
 Each builder is specified by the edits it makes below its base pointer.
 */
module PodPatch {
  import opened Options
  import opened Text
  import opened Pods
  import opened Json
  import opened JsonPatch
  import opened PodJson

  // ----- operations as the source spells them -----

  lemma SpellNothing<T>(basePath: string, encode: T -> Json)
    ensures Spell(basePath, []) == [] && Appends([], encode) == []
  {
  }

  lemma SpellWhole(basePath: string, kind: Kind, value: Json)
    ensures Spell(basePath, [Edit(kind, [], value)]) == [Operation(kind, basePath, value)]
  {
    assert basePath + "" == basePath;
  }

  lemma ChildPath(basePath: string, i: nat)
    ensures basePath + "/" + PrintNat(i) == basePath + PrintPointer([PrintNat(i)])
  {
    PlainNeedsNoEscape(PrintNat(i));
    assert PrintPointer([PrintNat(i)]) == "/" + PrintNat(i) + "";
  }

  predicate Plain(s: string) {
    '~' !in s && '/' !in s
  }

  lemma {:induction false} PlainNeedsNoEscape(s: string)
    requires Plain(s)
    ensures Escape(s) == s
  {
    if s != "" {
      EscapeOfCons(s);
      PlainNeedsNoEscape(s[1..]);
      assert s == [s[0]] + s[1..];
    }
  }

  lemma SpellAppended<T>(basePath: string, items: seq<T>, item: T, encode: T -> Json)
    ensures Spell(basePath, Appends(items + [item], encode)) ==
            Spell(basePath, Appends(items, encode)) + [Operation(Add, basePath + "/-", encode(item))]
  {
    EscapeOfCons("-");
    assert ("-")[1..] == "";
    assert PrintPointer(["-"]) == "/-";
  }

  lemma SpellChanged(basePath: string, i: nat, edits: seq<Edit>, value: Json)
    ensures Spell(basePath, edits + [Edit(Replace, [PrintNat(i)], value)]) ==
            Spell(basePath, edits) + [Operation(Replace, basePath + "/" + PrintNat(i), value)]
  {
    ChildPath(basePath, i);
  }

  /** A place named by a plain word. */
  lemma SpellBelow(basePath: string, token: string, step: string, edits: seq<Edit>)
    requires Escape(token) == token && step == "/" + token
    ensures Spell(basePath, Under(token, edits)) == Spell(basePath + step, edits)
  {
    hide Spell, Under, Escape;
    SpellUnder(basePath, token, edits);
    assert basePath + "/" + token == basePath + ("/" + token);
  }

  // ----- lists that only grow -----

  function Fresh<T>(was: seq<T>, now: seq<T>, nameOf: T -> string): seq<T> {
    if now == [] then []
    else (if HasName(was, nameOf, nameOf(now[0])) then [] else [now[0]]) + Fresh(was, now[1..], nameOf)
  }

  function Appends<T>(items: seq<T>, encode: T -> Json): seq<Edit> {
    seq(|items|, i requires 0 <= i < |items| => Edit(Add, ["-"], encode(items[i])))
  }

  function AppendEdits<T>(was: seq<T>, now: seq<T>, nameOf: T -> string, encode: T -> Json): seq<Edit> {
    if now == [] then []
    else if was == [] then [Edit(Add, [], EncodeList(encode, now))]
    else Appends(Fresh(was, now, nameOf), encode)
  }

  lemma {:induction false} FreshConcat<T>(was: seq<T>, a: seq<T>, b: seq<T>, nameOf: T -> string)
    ensures Fresh(was, a + b, nameOf) == Fresh(was, a, nameOf) + Fresh(was, b, nameOf)
  {
    if a == [] {
      assert a + b == b;
    } else {
      assert (a + b)[1..] == a[1..] + b;
      FreshConcat(was, a[1..], b, nameOf);
    }
  }

  method BuildNamedAppendPatch<T>(basePath: string, oldItems: seq<T>, newItems: seq<T>, nameFn: T -> string,
        encode: T -> Json)
    returns (patches: seq<Operation>)
    ensures patches == Spell(basePath, AppendEdits(oldItems, newItems, nameFn, encode))
  {
    hide Spell, Appends, EncodeList;
    SpellNothing(basePath, encode);
    if |newItems| == 0 {
      return [];
    }
    if |oldItems| == 0 {
      SpellWhole(basePath, Add, EncodeList(encode, newItems));
      return [Operation(Add, basePath, EncodeList(encode, newItems))];
    }
    var oldNames: set<string> := {};
    for i := 0 to |oldItems|
      invariant forall name :: name in oldNames <==> exists k | 0 <= k < i :: nameFn(oldItems[k]) == name
    {
      oldNames := oldNames + {nameFn(oldItems[i])};
    }
    patches := [];
    for i := 0 to |newItems|
      invariant patches == Spell(basePath, Appends(Fresh(oldItems, newItems[..i], nameFn), encode))
    {
      var item := newItems[i];
      assert newItems[..i + 1] == newItems[..i] + [item];
      FreshConcat(oldItems, newItems[..i], [item], nameFn);
      assert Fresh(oldItems, [item], nameFn) == if HasName(oldItems, nameFn, nameFn(item)) then [] else [item];
      assert Fresh(oldItems, newItems[..i], nameFn) + [] == Fresh(oldItems, newItems[..i], nameFn);
      if nameFn(item) !in oldNames {
        SpellAppended(basePath, Fresh(oldItems, newItems[..i], nameFn), item, encode);
        patches := patches + [Operation(Add, basePath + "/-", encode(item))];
      }
    }
    assert newItems[..|newItems|] == newItems;
  }

  // ----- environments -----

  predicate SameNames(was: seq<EnvVar>, now: seq<EnvVar>)
    requires |was| <= |now|
  {
    forall i | 0 <= i < |was| :: was[i].name == now[i].name
  }

  /** One replacement for each variable before `upTo` whose value changed. */
  function ChangedEdits(was: seq<EnvVar>, now: seq<EnvVar>, encode: EnvVar -> Json, upTo: nat): seq<Edit>
    requires upTo <= |was| <= |now|
  {
    if upTo == 0 then []
    else
      var i := upTo - 1;
      ChangedEdits(was, now, encode, i)
      + (if was[i] == now[i] then [] else [Edit(Replace, [PrintNat(i)], encode(now[i]))])
  }

  function EnvEdits(was: seq<EnvVar>, now: seq<EnvVar>, encode: EnvVar -> Json): seq<Edit> {
    if now == [] then []
    else if was == [] then [Edit(Add, [], EncodeList(encode, now))]
    else if |now| < |was| || !SameNames(was, now) then [Edit(Replace, [], EncodeList(encode, now))]
    else ChangedEdits(was, now, encode, |was|) + Appends(now[|was|..], encode)
  }

  method BuildEnvPatch(basePath: string, oldEnvs: seq<EnvVar>, newEnvs: seq<EnvVar>, encode: EnvVar -> Json)
    returns (patches: seq<Operation>)
    ensures patches == Spell(basePath, EnvEdits(oldEnvs, newEnvs, encode))
  {
    hide Spell, Appends, EncodeList, PrintNat;
    SpellNothing(basePath, encode);
    if |newEnvs| == 0 {
      return [];
    }
    if |oldEnvs| == 0 {
      SpellWhole(basePath, Add, EncodeList(encode, newEnvs));
      return [Operation(Add, basePath, EncodeList(encode, newEnvs))];
    }
    if |newEnvs| < |oldEnvs| {
      SpellWhole(basePath, Replace, EncodeList(encode, newEnvs));
      return [Operation(Replace, basePath, EncodeList(encode, newEnvs))];
    }
    patches := [];
    for i := 0 to |oldEnvs|
      invariant SameNames(oldEnvs[..i], newEnvs)
      invariant patches == Spell(basePath, ChangedEdits(oldEnvs, newEnvs, encode, i))
    {
      if oldEnvs[i].name != newEnvs[i].name {
        SpellWhole(basePath, Replace, EncodeList(encode, newEnvs));
        return [Operation(Replace, basePath, EncodeList(encode, newEnvs))];
      }
      assert ChangedEdits(oldEnvs, newEnvs, encode, i) + [] == ChangedEdits(oldEnvs, newEnvs, encode, i);
      if oldEnvs[i] != newEnvs[i] {
        SpellChanged(basePath, i, ChangedEdits(oldEnvs, newEnvs, encode, i), encode(newEnvs[i]));
        patches := patches + [Operation(Replace, basePath + "/" + PrintNat(i), encode(newEnvs[i]))];
      }
    }
    ghost var changed := patches;
    ghost var tail := newEnvs[|oldEnvs|..];
    for i := |oldEnvs| to |newEnvs|
      invariant patches == changed + Spell(basePath, Appends(tail[..i - |oldEnvs|], encode))
    {
      ghost var k := i - |oldEnvs|;
      assert tail[..k + 1] == tail[..k] + [newEnvs[i]];
      SpellAppended(basePath, tail[..k], newEnvs[i], encode);
      patches := patches + [Operation(Add, basePath + "/-", encode(newEnvs[i]))];
    }
    assert tail[..|tail|] == tail;
    SpellConcat(basePath, ChangedEdits(oldEnvs, newEnvs, encode, |oldEnvs|), Appends(tail, encode));
  }

  // ----- fields of containers -----

  /** The last container of the name. */
  function LastNamed(containers: seq<Container>, name: string): (c: Option<Container>)
    ensures c.None? <==> forall k <- containers :: k.name != name
  {
    if containers == [] then None
    else
      var last := containers[|containers| - 1];
      if last.name == name then Some(last) else LastNamed(containers[..|containers| - 1], name)
  }

  function FieldEdits(codecs: Codecs, was: Container, now: Container): seq<Edit> {
    Under("env", EnvEdits(was.env, now.env, codecs.env.encode))
    + Under("volumeMounts", AppendEdits(was.mounts, now.mounts, MountName, codecs.mount.encode))
  }

  function FieldEditsAt(codecs: Codecs, was: seq<Container>, now: seq<Container>, i: nat): seq<Edit>
    requires i < |was|
  {
    match LastNamed(now, was[i].name)
    case None => []
    case Some(c) => Under(PrintNat(i), FieldEdits(codecs, was[i], c))
  }

  function ContainerFieldEdits(codecs: Codecs, was: seq<Container>, now: seq<Container>, upTo: nat): seq<Edit>
    requires upTo <= |was|
  {
    if upTo == 0 then []
    else ContainerFieldEdits(codecs, was, now, upTo - 1) + FieldEditsAt(codecs, was, now, upTo - 1)
  }

  lemma SpellFields(codecs: Codecs, basePath: string, i: nat, was: Container, now: Container)
    ensures Spell(basePath, Under(PrintNat(i), FieldEdits(codecs, was, now))) ==
            Spell(basePath + "/" + PrintNat(i) + "/env", EnvEdits(was.env, now.env, codecs.env.encode))
            + Spell(basePath + "/" + PrintNat(i) + "/volumeMounts",
                    AppendEdits(was.mounts, now.mounts, MountName, codecs.mount.encode))
  {
    var env := EnvEdits(was.env, now.env, codecs.env.encode);
    var mounts := AppendEdits(was.mounts, now.mounts, MountName, codecs.mount.encode);
    var containerPath := basePath + "/" + PrintNat(i);
    hide *;
    ChildNeedsNoEscape(i);
    FieldPaths();
    SpellUnder(basePath, PrintNat(i), FieldEdits(codecs, was, now));
    FieldEditsParts(codecs, was, now);
    SpellConcat(containerPath, Under("env", env), Under("volumeMounts", mounts));
    SpellBelow(containerPath, "env", "/env", env);
    SpellBelow(containerPath, "volumeMounts", "/volumeMounts", mounts);
  }

  lemma FieldEditsParts(codecs: Codecs, was: Container, now: Container)
    ensures FieldEdits(codecs, was, now) ==
            Under("env", EnvEdits(was.env, now.env, codecs.env.encode))
            + Under("volumeMounts", AppendEdits(was.mounts, now.mounts, MountName, codecs.mount.encode))
  {
    hide Under, EnvEdits, AppendEdits;
  }

  lemma ChildNeedsNoEscape(i: nat)
    ensures Escape(PrintNat(i)) == PrintNat(i)
  {
    PlainNeedsNoEscape(PrintNat(i));
  }

  lemma FieldPaths()
    ensures "/" + "env" == "/env" && Escape("env") == "env"
    ensures "/" + "volumeMounts" == "/volumeMounts" && Escape("volumeMounts") == "volumeMounts"
  {
    hide Escape;
    PlainNeedsNoEscape("env");
    PlainNeedsNoEscape("volumeMounts");
  }

  method BuildContainerFieldPatch(codecs: Codecs, oldContainers: seq<Container>, newContainers: seq<Container>)
    returns (patches: seq<Operation>)
    ensures patches ==
            Spell("/spec/containers", ContainerFieldEdits(codecs, oldContainers, newContainers, |oldContainers|))
  {
    hide Spell, Under, FieldEdits;
    var newByName: map<string, Container> := map[];
    for i := 0 to |newContainers|
      invariant forall name ::
        (if name in newByName then Some(newByName[name]) else None) == LastNamed(newContainers[..i], name)
    {
      assert newContainers[..i + 1][..i] == newContainers[..i];
      newByName := newByName[newContainers[i].name := newContainers[i]];
    }
    assert newContainers[..|newContainers|] == newContainers;

    SpellNothing("/spec/containers", codecs.env.encode);
    patches := [];
    for i := 0 to |oldContainers|
      invariant patches == Spell("/spec/containers", ContainerFieldEdits(codecs, oldContainers, newContainers, i))
    {
      var was := oldContainers[i];
      SpellConcat("/spec/containers", ContainerFieldEdits(codecs, oldContainers, newContainers, i),
                  FieldEditsAt(codecs, oldContainers, newContainers, i));
      if was.name in newByName {
        var now := newByName[was.name];
        assert LastNamed(newContainers, was.name) == Some(now);
        var containerPath := "/spec/containers" + "/" + PrintNat(i);
        var env := BuildEnvPatch(containerPath + "/env", was.env, now.env, codecs.env.encode);
        var mounts :=
          BuildNamedAppendPatch(containerPath + "/volumeMounts", was.mounts, now.mounts, MountName,
                                codecs.mount.encode);
        SpellFields(codecs, "/spec/containers", i, was, now);
        patches := patches + env + mounts;
      }
    }
  }

  // ----- annotations -----

  function KeyEdit(was: map<string, string>, now: map<string, string>, key: string): seq<Edit>
    requires key in now
  {
    if key !in was then [Edit(Add, [key], Str(now[key]))]
    else if was[key] != now[key] then [Edit(Replace, [key], Str(now[key]))]
    else []
  }

  function KeyEdits(was: map<string, string>, now: map<string, string>, keys: seq<string>): seq<Edit>
    requires forall k <- keys :: k in now
  {
    if keys == [] then []
    else
      var n := |keys| - 1;
      KeyEdits(was, now, keys[..n]) + KeyEdit(was, now, keys[n])
  }

  ghost function AnnotationEdits(was: map<string, string>, now: map<string, string>): seq<Edit> {
    if now == map[] then []
    else if was == map[] then [Edit(Add, [], EncodeStrings(now))]
    else KeyEdits(was, now, InOrder(now.Keys))
  }

  lemma SpellKey(basePath: string, kind: Kind, key: string, value: Json)
    ensures Spell(basePath, [Edit(kind, [key], value)]) == [Operation(kind, basePath + "/" + Escape(key), value)]
  {
    assert PrintPointer([key]) == "/" + Escape(key) + "";
    assert basePath + PrintPointer([key]) == basePath + "/" + Escape(key);
  }

  /** The pointer to an annotation has three tokens, of which the last is the key itself, slashes and all. */
  lemma AnnotationPathTokens(key: string)
    ensures Tokens("/metadata/annotations/" + Escape(key)) == Some(["metadata", "annotations", key])
  {
    hide Escape, Tokens;
    PodPaths();
    TokensOfPrinted(["metadata", "annotations", key]);
    assert ["metadata", "annotations", key][1..] == ["annotations", key] && ["annotations", key][1..] == [key];
    assert PrintPointer([key]) == "/" + Escape(key);
    assert PrintPointer(["annotations", key]) == "/annotations" + ("/" + Escape(key));
    assert PrintPointer(["metadata", "annotations", key]) == "/metadata" + ("/annotations" + ("/" + Escape(key)));
    assert "/metadata" + ("/annotations" + ("/" + Escape(key))) == "/metadata" + "/annotations" + "/" + Escape(key);
    assert "/metadata/annotations" + "/" == "/metadata/annotations/";
  }

  method EscapeJsonPointer(s: string) returns (r: string)
    ensures r == Escape(s)
    ensures DecodeToken(r) == s && ValidToken(r) && '/' !in r
  {
    r := ReplaceChar(s, '~', "~0");
    r := ReplaceChar(r, '/', "~1");
    DecodeOfEscape(s);
    EscapedIsOneToken(s);
  }

  /** The keys of a map, in the unspecified order of a map loop. */
  method CollectKeys(m: map<string, string>) returns (keys: seq<string>)
    ensures forall i, j | 0 <= i < j < |keys| :: keys[i] != keys[j]
    ensures forall k :: k in keys <==> k in m.Keys
  {
    keys := [];
    var left := m.Keys;
    while left != {}
      invariant forall i, j | 0 <= i < j < |keys| :: keys[i] != keys[j]
      invariant forall k :: k in keys <==> k in m.Keys && k !in left
      invariant left <= m.Keys
      decreases |left|
    {
      var k :| k in left;
      keys := keys + [k];
      left := left - {k};
    }
  }

  method BuildAnnotationPatch(was: map<string, string>, now: map<string, string>) returns (patches: seq<Operation>)
    ensures patches == Spell("/metadata/annotations", AnnotationEdits(was, now))
  {
    var base := "/metadata/annotations";
    hide Spell, InOrder, EncodeStrings, SortStrings, Escape, StrictlySorted;
    SpellNothing(base, (s: string) => Str(s));
    if |now| == 0 {
      return [];
    }
    if |was| == 0 {
      SpellWhole(base, Add, EncodeStrings(now));
      return [Operation(Add, base, EncodeStrings(now))];
    }
    patches := [];
    var keys := CollectKeys(now);
    SortOfDistinct(keys, now.Keys);
    keys := SortStrings(keys);
    assert keys == InOrder(now.Keys);
    for i := 0 to |keys|
      invariant forall k <- keys :: k in now
      invariant patches == Spell(base, KeyEdits(was, now, keys[..i]))
    {
      var key := keys[i];
      assert keys[..i + 1][..i] == keys[..i];
      SpellConcat(base, KeyEdits(was, now, keys[..i]), KeyEdit(was, now, key));
      var escaped := EscapeJsonPointer(key);
      if key !in was {
        SpellKey(base, Add, key, Str(now[key]));
        patches := patches + [Operation(Add, base + "/" + escaped, Str(now[key]))];
      } else if was[key] != now[key] {
        SpellKey(base, Replace, key, Str(now[key]));
        patches := patches + [Operation(Replace, base + "/" + escaped, Str(now[key]))];
      }
    }
    assert keys[..|keys|] == keys;
  }

  // ----- the whole patch -----

  function ShareEdits(was: Option<bool>, now: Option<bool>): seq<Edit> {
    if was != now && now.Some? then [Edit(if was.Some? then Replace else Add, [], Bool(now.value))] else []
  }

  function RestartEdits(was: string, now: string): seq<Edit> {
    if was != now && now != "" then [Edit(if was != "" then Replace else Add, [], Str(now))] else []
  }

  function SpecEdits(codecs: Codecs, was: Pod, now: Pod): seq<Edit> {
    Under("shareProcessNamespace", ShareEdits(was.shareProcessNamespace, now.shareProcessNamespace))
    + Under("restartPolicy", RestartEdits(was.restartPolicy, now.restartPolicy))
    + Under("volumes", AppendEdits(was.volumes, now.volumes, VolumeName, codecs.volume.encode))
    + Under("initContainers",
            AppendEdits(was.initContainers, now.initContainers, ContainerName, ContainerCodec(codecs).encode))
    + Under("containers", AppendEdits(was.containers, now.containers, ContainerName, ContainerCodec(codecs).encode))
    + Under("containers", ContainerFieldEdits(codecs, was.containers, now.containers, |was.containers|))
  }

  ghost function PodEdits(codecs: Codecs, was: Pod, now: Pod): seq<Edit> {
    Under("metadata", Under("annotations", AnnotationEdits(was.annotations, now.annotations)))
    + Under("spec", SpecEdits(codecs, was, now))
  }

  lemma SpellField(field: string, path: string, edits: seq<Edit>)
    requires Plain(field) && path == "/spec/" + field
    ensures Spell("/spec", Under(field, edits)) == Spell(path, edits)
  {
    hide Spell, Under;
    PlainNeedsNoEscape(field);
    SpellUnder("/spec", field, edits);
    assert "/spec" + "/" + field == "/spec/" + field;
  }

  lemma FieldsArePlain()
    ensures Plain("shareProcessNamespace")
    ensures Plain("restartPolicy")
    ensures Plain("volumes")
    ensures Plain("initContainers")
    ensures Plain("containers")
  {
  }

  lemma SpecPaths()
    ensures "/spec/" + "shareProcessNamespace" == "/spec/shareProcessNamespace"
    ensures "/spec/" + "restartPolicy" == "/spec/restartPolicy"
    ensures "/spec/" + "volumes" == "/spec/volumes"
    ensures "/spec/" + "initContainers" == "/spec/initContainers"
    ensures "/spec/" + "containers" == "/spec/containers"
  {
  }

  method BuildPodSpecPatch(codecs: Codecs, was: Pod, now: Pod) returns (patches: seq<Operation>)
    ensures patches == Spell("/spec", SpecEdits(codecs, was, now))
  {
    var encode := ContainerCodec(codecs).encode;
    hide Spell, Under, AppendEdits, ContainerFieldEdits, ContainerCodec;
    SpellNothing("/spec/shareProcessNamespace", encode);
    SpellNothing("/spec/restartPolicy", encode);
    patches := [];
    if was.shareProcessNamespace != now.shareProcessNamespace && now.shareProcessNamespace.Some? {
      var kind := if was.shareProcessNamespace.Some? then Replace else Add;
      SpellWhole("/spec/shareProcessNamespace", kind, Bool(now.shareProcessNamespace.value));
      patches := [Operation(kind, "/spec/shareProcessNamespace", Bool(now.shareProcessNamespace.value))];
    }
    if was.restartPolicy != now.restartPolicy && now.restartPolicy != "" {
      var kind := if was.restartPolicy != "" then Replace else Add;
      SpellWhole("/spec/restartPolicy", kind, Str(now.restartPolicy));
      patches := patches + [Operation(kind, "/spec/restartPolicy", Str(now.restartPolicy))];
    }
    var volumes :=
      BuildNamedAppendPatch("/spec/volumes", was.volumes, now.volumes, VolumeName, codecs.volume.encode);
    var initContainers :=
      BuildNamedAppendPatch("/spec/initContainers", was.initContainers, now.initContainers, ContainerName, encode);
    var containers := BuildNamedAppendPatch("/spec/containers", was.containers, now.containers, ContainerName, encode);
    var fields := BuildContainerFieldPatch(codecs, was.containers, now.containers);
    patches := patches + volumes + initContainers + containers + fields;
    SpellSpec(codecs, was, now);
  }

  lemma SpellSpec(codecs: Codecs, was: Pod, now: Pod)
    ensures Spell("/spec", SpecEdits(codecs, was, now)) ==
            Spell("/spec/shareProcessNamespace", ShareEdits(was.shareProcessNamespace, now.shareProcessNamespace))
            + Spell("/spec/restartPolicy", RestartEdits(was.restartPolicy, now.restartPolicy))
            + Spell("/spec/volumes", AppendEdits(was.volumes, now.volumes, VolumeName, codecs.volume.encode))
            + Spell("/spec/initContainers",
                    AppendEdits(was.initContainers, now.initContainers, ContainerName, ContainerCodec(codecs).encode))
            + Spell("/spec/containers",
                    AppendEdits(was.containers, now.containers, ContainerName, ContainerCodec(codecs).encode))
            + Spell("/spec/containers",
                    ContainerFieldEdits(codecs, was.containers, now.containers, |was.containers|))
  {
    hide Spell, Under, AppendEdits, ContainerFieldEdits, ShareEdits, RestartEdits, ContainerCodec, Plain;
    FieldsArePlain();
    SpecPaths();
    var a := ShareEdits(was.shareProcessNamespace, now.shareProcessNamespace);
    var b := RestartEdits(was.restartPolicy, now.restartPolicy);
    var c := AppendEdits(was.volumes, now.volumes, VolumeName, codecs.volume.encode);
    var d := AppendEdits(was.initContainers, now.initContainers, ContainerName, ContainerCodec(codecs).encode);
    var e := AppendEdits(was.containers, now.containers, ContainerName, ContainerCodec(codecs).encode);
    var f := ContainerFieldEdits(codecs, was.containers, now.containers, |was.containers|);
    SpellField("shareProcessNamespace", "/spec/shareProcessNamespace", a);
    SpellField("restartPolicy", "/spec/restartPolicy", b);
    SpellField("volumes", "/spec/volumes", c);
    SpellField("initContainers", "/spec/initContainers", d);
    SpellField("containers", "/spec/containers", e);
    SpellField("containers", "/spec/containers", f);
    SpellConcatSix(Under("shareProcessNamespace", a), Under("restartPolicy", b), Under("volumes", c),
                   Under("initContainers", d), Under("containers", e), Under("containers", f));
  }

  lemma SpellConcatSix(a: seq<Edit>, b: seq<Edit>, c: seq<Edit>, d: seq<Edit>, e: seq<Edit>, f: seq<Edit>)
    ensures Spell("/spec", a + b + c + d + e + f) ==
            Spell("/spec", a) + Spell("/spec", b) + Spell("/spec", c) + Spell("/spec", d) + Spell("/spec", e)
            + Spell("/spec", f)
  {
    hide Spell;
    SpellConcat("/spec", a, b);
    SpellConcat("/spec", a + b, c);
    SpellConcat("/spec", a + b + c, d);
    SpellConcat("/spec", a + b + c + d, e);
    SpellConcat("/spec", a + b + c + d + e, f);
  }

  /** No patch at all without two pods. */
  method BuildPodInjectionPatch(codecs: Codecs, oldPod: Option<Pod>, newPod: Option<Pod>)
    returns (patches: seq<Operation>)
    ensures oldPod.None? || newPod.None? ==> patches == []
    ensures oldPod.Some? && newPod.Some? ==> patches == Spell("", PodEdits(codecs, oldPod.value, newPod.value))
  {
    if oldPod.None? || newPod.None? {
      return [];
    }
    var annotations := BuildAnnotationPatch(oldPod.value.annotations, newPod.value.annotations);
    var spec := BuildPodSpecPatch(codecs, oldPod.value, newPod.value);
    patches := annotations + spec;
    SpellPod(codecs, oldPod.value, newPod.value);
  }

  lemma SpellPod(codecs: Codecs, was: Pod, now: Pod)
    ensures Spell("", PodEdits(codecs, was, now)) ==
            Spell("/metadata/annotations", AnnotationEdits(was.annotations, now.annotations))
            + Spell("/spec", SpecEdits(codecs, was, now))
  {
    var a := AnnotationEdits(was.annotations, now.annotations);
    var s := SpecEdits(codecs, was, now);
    hide Spell, Under, AnnotationEdits, SpecEdits;
    PodPaths();
    SpellConcat("", Under("metadata", Under("annotations", a)), Under("spec", s));
    SpellBelow("", "metadata", "/metadata", Under("annotations", a));
    SpellBelow("/metadata", "annotations", "/annotations", a);
    SpellBelow("", "spec", "/spec", s);
  }

  lemma PodPaths()
    ensures "/" + "metadata" == "/metadata" == "" + "/metadata" && Escape("metadata") == "metadata"
    ensures "/" + "annotations" == "/annotations" && Escape("annotations") == "annotations"
    ensures "/metadata" + "/annotations" == "/metadata/annotations"
    ensures "/" + "spec" == "/spec" == "" + "/spec" && Escape("spec") == "spec"
  {
    hide Escape;
    PlainNeedsNoEscape("metadata");
    PlainNeedsNoEscape("annotations");
    PlainNeedsNoEscape("spec");
  }
}
