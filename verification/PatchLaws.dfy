/**
 Laws of patching: what RFC 6902 says of single operations, which operations the builders choose, and
 that they choose none for a pod that did not change.
 */
module PatchLaws {
  import opened Options
  import opened Text
  import opened Pods
  import opened Json
  import opened JsonPatch
  import opened PodJson
  import opened PodPatch
  import opened PodHistories

  // ----- pointers and indices -----

  lemma DigitsAre(c: char)
    ensures c in DIGITS <==> '0' <= c <= '9'
  {
  }

  /** Canonical decimal texts, and no others, are indices (section 4 of RFC 6901). */
  lemma IndexIff(s: string, i: nat)
    ensures ParseIndex(s) == Some(i) <==> s == PrintNat(i)
  {
    hide Number;
    IndexOfPrinted(i);
    if ParseIndex(s) == Some(i) {
      CanonicalIsPrinted(s);
    }
  }

  lemma {:induction false} CanonicalIsPrinted(s: string)
    requires s != "" && (forall c <- s :: c in DIGITS) && (s[0] == '0' ==> |s| == 1)
    ensures PrintNat(Number(s)) == s
  {
    var init, last := s[..|s| - 1], s[|s| - 1];
    assert last in s && s == init + [last];
    DigitsAre(last);
    assert Number(s) == Number(init) * 10 + DigitValue(last);
    assert DigitValue(last) <= 9 && DIGITS[DigitValue(last)] == last;
    if init == "" {
      assert Number(init) == 0;
    } else {
      assert forall c <- init :: c in s;
      assert init[0] == s[0];
      CanonicalIsPrinted(init);
      NotZero(init);
      assert Number(s) / 10 == Number(init) && Number(s) % 10 == DigitValue(last);
    }
  }

  lemma {:induction false} NotZero(s: string)
    requires s != "" && (forall c <- s :: c in DIGITS) && s[0] != '0'
    ensures Number(s) > 0
  {
    var init, last := s[..|s| - 1], s[|s| - 1];
    assert last in s;
    DigitsAre(last);
    if init != "" {
      assert forall c <- init :: c in s;
      NotZero(init);
    } else {
      assert s[0] == last;
    }
  }

  /** A pointer is empty or starts with a slash (section 3 of RFC 6901). */
  lemma PointersStartWithSlash(path: string)
    requires path != "" && path[0] != '/'
    ensures Tokens(path).None?
  {
  }

  // ----- single operations -----

  /** Sections 4.1 and 4.3 of RFC 6902 for the members of an object. */
  lemma MemberOperations(members: map<string, Json>, key: string, value: Json)
    ensures ApplyEdit(Obj(members), Edit(Add, [key], value)) == Some(Obj(members[key := value]))
    ensures ApplyEdit(Obj(members), Edit(Replace, [key], value)) ==
            if key in members then Some(Obj(members[key := value])) else None
  {
    assert [key][1..] == [];
  }

  /** And for the elements of an array: adding inserts in front of the index, or at the end. */
  lemma ElementOperations(items: seq<Json>, i: nat, value: Json)
    ensures ApplyEdit(Arr(items), Edit(Add, ["-"], value)) == Some(Arr(items + [value]))
    ensures ApplyEdit(Arr(items), Edit(Replace, ["-"], value)) == None
    ensures ApplyEdit(Arr(items), Edit(Add, [PrintNat(i)], value)) ==
            if i <= |items| then Some(Arr(items[..i] + [value] + items[i..])) else None
    ensures ApplyEdit(Arr(items), Edit(Replace, [PrintNat(i)], value)) ==
            if i < |items| then Some(Arr(items[i := value])) else None
  {
    IndexOfPrinted(i);
    PrintedIsPlain(i);
    assert [PrintNat(i)][1..] == [] && ["-"][1..] == [];
  }

  /** A token that is no index names no element, and nothing has members but objects and arrays. */
  lemma OtherPlacesDoNotExist(items: seq<Json>, token: string, kind: Kind, value: Json, text: string)
    requires token != "-" && forall i: nat :: token != PrintNat(i)
    ensures ApplyEdit(Arr(items), Edit(kind, [token], value)) == None
    ensures ApplyEdit(Str(text), Edit(kind, [token], value)) == None
    ensures ApplyEdit(Null, Edit(kind, [token], value)) == None
  {
    if ParseIndex(token).Some? {
      IndexIff(token, ParseIndex(token).value);
    }
    assert [token][1..] == [];
  }

  // ----- which operations the builders choose -----

  /** What was there is replaced, what was missing is added, and nothing is removed. */
  lemma ScalarEditsAre(share: bool, again: bool, policy: string, other: string)
    requires share != again && policy != "" && other != "" && policy != other
    ensures ShareEdits(None, Some(share)) == [Edit(Add, [], Bool(share))]
    ensures ShareEdits(Some(again), Some(share)) == [Edit(Replace, [], Bool(share))]
    ensures ShareEdits(Some(share), Some(share)) == [] && ShareEdits(Some(share), None) == []
    ensures RestartEdits("", policy) == [Edit(Add, [], Str(policy))]
    ensures RestartEdits(other, policy) == [Edit(Replace, [], Str(policy))]
    ensures RestartEdits(policy, policy) == [] && RestartEdits(policy, "") == []
  {
  }

  predicate NamesInPlace(was: seq<EnvVar>, now: seq<EnvVar>) {
    |was| <= |now| && forall i | 0 <= i < |was| :: was[i].name == now[i].name
  }

  /**
   An environment is replaced as a whole only where names moved or went away; else exactly the changed
   variables are replaced in their places, and exactly the new ones are added.
   */
  lemma EnvEditsAre(was: seq<EnvVar>, now: seq<EnvVar>, encode: EnvVar -> Json)
    ensures now == [] ==> EnvEdits(was, now, encode) == []
    ensures now != [] && was == [] ==> EnvEdits(was, now, encode) == [Edit(Add, [], EncodeList(encode, now))]
    ensures now != [] && was != [] && !NamesInPlace(was, now) ==>
              EnvEdits(was, now, encode) == [Edit(Replace, [], EncodeList(encode, now))]
    ensures now != [] && was != [] && NamesInPlace(was, now) ==>
              forall e :: e in EnvEdits(was, now, encode) <==>
                (exists i: nat :: ReplacesAt(was, now, encode, i, e))
                || (exists i: nat :: AddsAt(was, now, encode, i, e))
  {
    if now != [] && was != [] && NamesInPlace(was, now) {
      forall e ensures e in EnvEdits(was, now, encode) <==>
          (exists i: nat :: ReplacesAt(was, now, encode, i, e)) || (exists i: nat :: AddsAt(was, now, encode, i, e))
      {
        ChangesAre(was, now, encode, |was|, e);
        AddedAre(was, now, encode, e);
      }
    }
  }

  predicate ReplacesAt(was: seq<EnvVar>, now: seq<EnvVar>, encode: EnvVar -> Json, i: nat, e: Edit) {
    i < |was| <= |now| && was[i] != now[i] && e == Edit(Replace, [PrintNat(i)], encode(now[i]))
  }

  predicate AddsAt(was: seq<EnvVar>, now: seq<EnvVar>, encode: EnvVar -> Json, i: nat, e: Edit) {
    |was| <= i < |now| && e == Edit(Add, ["-"], encode(now[i]))
  }

  lemma {:induction false} ChangesAre(was: seq<EnvVar>, now: seq<EnvVar>, encode: EnvVar -> Json, upTo: nat, e: Edit)
    requires upTo <= |was| <= |now|
    ensures e in ChangedEdits(was, now, encode, upTo)
            <==> exists i: nat | i < upTo :: ReplacesAt(was, now, encode, i, e)
  {
    if upTo > 0 {
      ChangesAre(was, now, encode, upTo - 1, e);
      var before := ChangedEdits(was, now, encode, upTo - 1);
      var i := upTo - 1;
      var last := if was[i] == now[i] then [] else [Edit(Replace, [PrintNat(i)], encode(now[i]))];
      assert ChangedEdits(was, now, encode, upTo) == before + last;
      assert e in last <==> ReplacesAt(was, now, encode, i, e);
    }
  }

  lemma AddedAre(was: seq<EnvVar>, now: seq<EnvVar>, encode: EnvVar -> Json, e: Edit)
    requires |was| <= |now|
    ensures e in Appends(now[|was|..], encode) <==> exists i: nat :: AddsAt(was, now, encode, i, e)
  {
    var tail := now[|was|..];
    if i: nat :| AddsAt(was, now, encode, i, e) {
      assert tail[i - |was|] == now[i] && Appends(tail, encode)[i - |was|] == e;
    }
    if e in Appends(tail, encode) {
      var k :| 0 <= k < |tail| && Appends(tail, encode)[k] == e;
      assert tail[k] == now[|was| + k];
      assert AddsAt(was, now, encode, |was| + k, e);
    }
  }

  // ----- nothing for nothing -----

  lemma NothingFreshNothingAdded<T>(items: seq<T>, nameOf: T -> string, encode: T -> Json)
    ensures AppendEdits(items, items, nameOf, encode) == []
  {
    NothingFreshOfSame(items, nameOf);
  }

  lemma {:induction false} NoChanges(env: seq<EnvVar>, encode: EnvVar -> Json, upTo: nat)
    requires upTo <= |env|
    ensures ChangedEdits(env, env, encode, upTo) == []
  {
    if upTo > 0 {
      NoChanges(env, encode, upTo - 1);
    }
  }

  lemma SameFieldsNoEdits(codecs: Codecs, c: Container)
    ensures FieldEdits(codecs, c, c) == []
  {
    NothingFreshNothingAdded(c.mounts, MountName, codecs.mount.encode);
    NoChanges(c.env, codecs.env.encode, |c.env|);
    assert c.env[|c.env|..] == [];
  }

  lemma {:induction false} SameContainersNoEdits(codecs: Codecs, containers: seq<Container>, upTo: nat)
    requires upTo <= |containers| && DistinctNames(containers, ContainerName)
    ensures ContainerFieldEdits(codecs, containers, containers, upTo) == []
  {
    hide FieldEditsAt;
    if upTo > 0 {
      SameContainersNoEdits(codecs, containers, upTo - 1);
      SameContainerNoEdits(codecs, containers, upTo - 1);
    }
  }

  lemma SameContainerNoEdits(codecs: Codecs, containers: seq<Container>, i: nat)
    requires i < |containers| && DistinctNames(containers, ContainerName)
    ensures FieldEditsAt(codecs, containers, containers, i) == []
  {
    hide FieldEdits, LastNamed, PrintNat;
    forall k | i < k < |containers| ensures containers[k].name != containers[i].name {
      assert ContainerName(containers[i]) != ContainerName(containers[k]);
    }
    LastNamedIs(containers, i);
    SameFieldsNoEdits(codecs, containers[i]);
  }

  lemma {:induction false} SameKeysNoEdits(m: map<string, string>, keys: seq<string>)
    requires forall k <- keys :: k in m
    ensures KeyEdits(m, m, keys) == []
  {
    if keys != [] {
      SameKeysNoEdits(m, keys[..|keys| - 1]);
    }
  }

  /** A pod that did not change needs no patch. */
  lemma UnchangedPodNeedsNoPatch(codecs: Codecs, pod: Pod)
    requires DistinctNames(pod.containers, ContainerName)
    ensures PodEdits(codecs, pod, pod) == []
  {
    hide AppendEdits, ContainerFieldEdits, KeyEdits, ContainerCodec;
    NothingFreshNothingAdded(pod.volumes, VolumeName, codecs.volume.encode);
    NothingFreshNothingAdded(pod.initContainers, ContainerName, ContainerCodec(codecs).encode);
    NothingFreshNothingAdded(pod.containers, ContainerName, ContainerCodec(codecs).encode);
    SameContainersNoEdits(codecs, pod.containers, |pod.containers|);
    if pod.annotations != map[] {
      SameKeysNoEdits(pod.annotations, InOrder(pod.annotations.Keys));
    }
  }
}
