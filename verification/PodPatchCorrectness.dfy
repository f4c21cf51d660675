/** The admission patch as a whole: it always applies, and what it rebuilds. */
module PodPatchCorrectness {
  import opened Options
  import opened Pods
  import opened Json
  import opened JsonPatch
  import opened PodJson
  import opened PodPatch
  import opened PodPatchFields

  function PatchedContainers(was: seq<Container>, now: seq<Container>): seq<Container> {
    FirstPatched(was, now, |was|) + Fresh(was, now, ContainerName)
  }

  function FirstPatched(containers: seq<Container>, now: seq<Container>, upTo: nat): seq<Container> {
    seq(|containers|, i requires 0 <= i < |containers| =>
        if i < upTo then PatchedContainer(containers[i], now) else containers[i])
  }

  /** What a pod becomes when the patch from it to another pod is applied. */
  function PatchedPod(was: Pod, now: Pod): Pod {
    was.(annotations := PatchedAnnotations(was.annotations, now.annotations),
          shareProcessNamespace := PatchedShare(was.shareProcessNamespace, now.shareProcessNamespace),
          restartPolicy := PatchedRestart(was.restartPolicy, now.restartPolicy),
          volumes := PatchedList(was.volumes, now.volumes, VolumeName),
          initContainers := PatchedList(was.initContainers, now.initContainers, ContainerName),
          containers := PatchedContainers(was.containers, now.containers))
  }

  // ----- the containers that were there -----

  predicate ItemsKept(before: seq<Json>, after: seq<Json>, upTo: nat) {
    && |before| == |after|
    && (forall i | 0 <= i < |before| && i < upTo :: SameOutside(before[i], after[i], PATCHED_FIELDS))
    && (forall i | upTo <= i < |before| :: before[i] == after[i])
  }

  lemma FirstPatchedGrows(containers: seq<Container>, now: seq<Container>, upTo: nat)
    requires upTo <= |containers|
    ensures upTo == 0 ==> FirstPatched(containers, now, 0) == containers
    ensures upTo > 0 ==>
              var i := upTo - 1;
              && |FirstPatched(containers, now, i)| == |containers|
              && FirstPatched(containers, now, i)[i] == containers[i]
              && FirstPatched(containers, now, upTo)
                 == FirstPatched(containers, now, i)[i := PatchedContainer(containers[i], now)]
  {
    hide PatchedContainer;
  }

  lemma NoEditsOnItems(items: seq<Json>)
    ensures ApplyEdits(Arr(items), []) == Some(Arr(items))
  {
  }

  lemma {:induction false} ContainerFieldsPatch(
      codecs: Codecs, items: seq<Json>, all: seq<Container>, was: seq<Container>, now: seq<Container>, upTo: nat)
    requires Faithful(codecs) && DecodeItems(ContainerCodec(codecs).decode, items) == Some(all)
    requires upTo <= |was| <= |all| && all[..|was|] == was
    ensures var r := ApplyEdits(Arr(items), ContainerFieldEdits(codecs, was, now, upTo));
            && r.Some? && r.value.Arr?
            && DecodeItems(ContainerCodec(codecs).decode, r.value.items) == Some(FirstPatched(all, now, upTo))
            && ItemsKept(items, r.value.items, upTo)
  {
    hide DecodeItems, FieldEditsAt, FieldEdits, ContainerCodec, PatchedContainer, FirstPatched, SameOutside, ApplyEdits,
         Faithful;
    FirstPatchedGrows(all, now, upTo);
    if upTo == 0 {
      NoEditsOnItems(items);
    } else {
      var i := upTo - 1;
      ContainerFieldsPatch(codecs, items, all, was, now, i);
      var soFar := ContainerFieldEdits(codecs, was, now, i);
      EditsConcat(Arr(items), soFar, FieldEditsAt(codecs, was, now, i));
      var before := ApplyEdits(Arr(items), soFar).value.items;
      assert all[i] == was[i];
      OneContainerPatched(codecs, before, FirstPatched(all, now, i), was, now, i);
    }
  }

  lemma OneContainerPatched(
      codecs: Codecs, items: seq<Json>, all: seq<Container>, was: seq<Container>, now: seq<Container>, i: nat)
    requires Faithful(codecs) && DecodeItems(ContainerCodec(codecs).decode, items) == Some(all)
    requires i < |was| <= |all| && all[i] == was[i]
    ensures var r := ApplyEdits(Arr(items), FieldEditsAt(codecs, was, now, i));
            && r.Some? && r.value.Arr? && |r.value.items| == |items|
            && DecodeItems(ContainerCodec(codecs).decode, r.value.items)
               == Some(all[i := PatchedContainer(all[i], now)])
            && SameOutside(items[i], r.value.items[i], PATCHED_FIELDS)
            && r.value.items == items[i := r.value.items[i]]
  {
    hide DecodeItems, FieldEdits, DecodeContainer, Faithful;
    var decode := ContainerCodec(codecs).decode;
    var found := LastNamed(now, was[i].name);
    assert decode(items[i]) == Some(all[i]);
    if found.None? {
      ContainerIsObject(codecs, items[i]);
      assert items[i := items[i]] == items && all[i := all[i]] == all;
    } else {
      var edits := FieldEdits(codecs, was[i], found.value);
      FieldEditsPatch(codecs, items[i], was[i], found.value);
      FieldEditsAreBelow(codecs, was[i], found.value);
      EditsInItem(items, i, edits);
      var patched := ApplyEdits(items[i], edits).value;
      UpdatedItemsDecode(decode, items, i, patched);
    }
  }

  lemma ContainerIsObject(codecs: Codecs, doc: Json)
    requires DecodeContainer(codecs, doc).Some?
    ensures doc.Obj?
  {
  }

  lemma FieldEditsAreBelow(codecs: Codecs, was: Container, now: Container)
    ensures forall e <- FieldEdits(codecs, was, now) :: e.tokens != []
  {
    hide EnvEdits, AppendEdits;
  }

  lemma UpdatedItemsDecode<T>(decode: Json -> Option<T>, items: seq<Json>, i: nat, doc: Json)
    requires i < |items| && DecodeItems(decode, items).Some? && decode(doc).Some?
    ensures DecodeItems(decode, items[i := doc]) == Some(DecodeItems(decode, items).value[i := decode(doc).value])
  {
    hide DecodeItems;
    var after := items[i := doc];
    forall j <- after ensures decode(j).Some? {
      assert j == doc || j in items;
    }
    var r := DecodeItems(decode, after);
    assert r.Some?;
    forall k | 0 <= k < |items| ensures r.value[k] == DecodeItems(decode, items).value[i := decode(doc).value][k] {
      assert decode(after[k]) == Some(r.value[k]);
      assert decode(items[k]) == Some(DecodeItems(decode, items).value[k]);
    }
    assert r.value == DecodeItems(decode, items).value[i := decode(doc).value];
  }

  /** The member that holds a list of containers, before and after. */
  predicate ContainersKept(before: Option<Json>, after: Option<Json>, count: nat) {
    count > 0 ==>
      && before.Some? && before.value.Arr? && after.Some? && after.value.Arr?
      && |before.value.items| == count <= |after.value.items|
      && forall i | 0 <= i < count ::
           SameOutside(before.value.items[i], after.value.items[i], PATCHED_FIELDS)
  }

  lemma ContainerEditsPatch(codecs: Codecs, slot: Option<Json>, was: seq<Container>, now: seq<Container>)
    requires Faithful(codecs) && DecodeList(ContainerCodec(codecs).decode, slot) == Some(was)
    ensures var r := ApplyAllToSlot(slot,
              AppendEdits(was, now, ContainerName, ContainerCodec(codecs).encode)
              + ContainerFieldEdits(codecs, was, now, |was|));
            && r.Some?
            && DecodeList(ContainerCodec(codecs).decode, r.value) == Some(PatchedContainers(was, now))
            && ContainersKept(slot, r.value, |was|)
  {
    hide DecodeItems, AppendEdits, ContainerCodec, Faithful, ContainerFieldEdits;
    var codec := ContainerCodec(codecs);
    var grow := AppendEdits(was, now, ContainerName, codec.encode);
    var fields := ContainerFieldEdits(codecs, was, now, |was|);
    ContainersReadBack(codecs);
    AppendsPatchList(codec, slot, was, now, ContainerName);
    SlotEditsConcat(slot, grow, fields);
    var grown := ApplyAllToSlot(slot, grow).value;
    var all := PatchedList(was, now, ContainerName);
    if was == [] {
      NoFieldEdits(codecs, now);
      assert FirstPatched(was, now, 0) == [];
    } else {
      assert all[..|was|] == was;
      ContainerFieldsPatch(codecs, grown.value.items, all, was, now, |was|);
      ContainerFieldEditsAreBelow(codecs, was, now, |was|);
      SlotOfDocument(grown.value, fields);
      assert FirstPatched(all, now, |was|) == PatchedContainers(was, now);
    }
  }

  lemma NoFieldEdits(codecs: Codecs, now: seq<Container>)
    ensures ContainerFieldEdits(codecs, [], now, 0) == []
  {
  }

  lemma {:induction false} ContainerFieldEditsAreBelow(codecs: Codecs, was: seq<Container>, now: seq<Container>,
        upTo: nat)
    requires upTo <= |was|
    ensures forall e <- ContainerFieldEdits(codecs, was, now, upTo) :: e.tokens != []
  {
    hide FieldEdits;
    if upTo > 0 {
      ContainerFieldEditsAreBelow(codecs, was, now, upTo - 1);
    }
  }

  // ----- the spec -----

  const OWNED_SPEC := {"shareProcessNamespace", "restartPolicy", "volumes", "initContainers", "containers"}

  /** A list whose items stay as they are and which may have grown. */
  predicate ItemsStay(before: Option<Json>, after: Option<Json>) {
    before.Some? && before.value.Arr? && before.value.items != [] ==>
      after.Some? && after.value.Arr? && before.value.items <= after.value.items
  }

  /** The edits of the spec, one field after the other. */
  lemma SpecEditsParts(codecs: Codecs, was: Pod, now: Pod)
    ensures SpecEdits(codecs, was, now) ==
            Under("shareProcessNamespace", ShareEdits(was.shareProcessNamespace, now.shareProcessNamespace))
            + Under("restartPolicy", RestartEdits(was.restartPolicy, now.restartPolicy))
            + Under("volumes", AppendEdits(was.volumes, now.volumes, VolumeName, codecs.volume.encode))
            + Under("initContainers",
                    AppendEdits(was.initContainers, now.initContainers, ContainerName, ContainerCodec(codecs).encode))
            + Under("containers",
                    AppendEdits(was.containers, now.containers, ContainerName, ContainerCodec(codecs).encode)
                    + ContainerFieldEdits(codecs, was.containers, now.containers, |was.containers|))
  {
    hide Under, ShareEdits, RestartEdits, AppendEdits, ContainerFieldEdits, ContainerCodec;
    var grow := AppendEdits(was.containers, now.containers, ContainerName, ContainerCodec(codecs).encode);
    var fields := ContainerFieldEdits(codecs, was.containers, now.containers, |was.containers|);
    UnderConcat("containers", grow, fields);
    Regroup(Under("shareProcessNamespace", ShareEdits(was.shareProcessNamespace, now.shareProcessNamespace))
            + Under("restartPolicy", RestartEdits(was.restartPolicy, now.restartPolicy))
            + Under("volumes", AppendEdits(was.volumes, now.volumes, VolumeName, codecs.volume.encode))
            + Under("initContainers",
                    AppendEdits(was.initContainers, now.initContainers, ContainerName, ContainerCodec(codecs).encode)),
            Under("containers", grow), Under("containers", fields));
  }

  lemma Regroup<T>(a: seq<T>, b: seq<T>, c: seq<T>)
    ensures a + b + c == a + (b + c)
  {
  }

  lemma UnderConcat(token: string, a: seq<Edit>, b: seq<Edit>)
    ensures Under(token, a + b) == Under(token, a) + Under(token, b)
  {
  }

  lemma SpecEditsPatch(codecs: Codecs, spec: map<string, Json>, was: Pod, now: Pod) returns (after: map<string, Json>)
    requires Faithful(codecs) && DescribesSpec(codecs, spec, was)
    ensures ApplyEdits(Obj(spec), SpecEdits(codecs, was, now)) == Some(Obj(after))
    ensures DescribesSpec(codecs, after, PatchedPod(was, now))
    ensures after - OWNED_SPEC == spec - OWNED_SPEC
    ensures ItemsStay(Member(spec, "volumes"), Member(after, "volumes"))
    ensures ItemsStay(Member(spec, "initContainers"), Member(after, "initContainers"))
    ensures ContainersKept(Member(spec, "containers"), Member(after, "containers"), |was.containers|)
  {
    hide DecodeList, DecodeBool, DecodeString, ApplyEdits, ApplyAllToSlot, Under, ShareEdits, RestartEdits, AppendEdits,
         ContainerFieldEdits, ContainerCodec, PatchedContainers, PatchedList, PatchedShare, PatchedRestart, SpecEdits,
         Faithful, AllParts, ItemsStay, ContainersKept;
    var codec := ContainerCodec(codecs);
    var share := Part("shareProcessNamespace", ShareEdits(was.shareProcessNamespace, now.shareProcessNamespace));
    var restart := Part("restartPolicy", RestartEdits(was.restartPolicy, now.restartPolicy));
    var volumes := Part("volumes", AppendEdits(was.volumes, now.volumes, VolumeName, codecs.volume.encode));
    var inits :=
      Part("initContainers", AppendEdits(was.initContainers, now.initContainers, ContainerName, codec.encode));
    var containers :=
      Part("containers", AppendEdits(was.containers, now.containers, ContainerName, codec.encode)
                         + ContainerFieldEdits(codecs, was.containers, now.containers, |was.containers|));
    SpecEditsParts(codecs, was, now);
    PartsOfFive(share, restart, volumes, inits, containers);
    VolumesReadBack(codecs);
    ContainersReadBack(codecs);
    ShareEditsPatch(Member(spec, share.name), was.shareProcessNamespace, now.shareProcessNamespace);
    RestartEditsPatch(Member(spec, restart.name), was.restartPolicy, now.restartPolicy);
    VolumeEditsPatch(codecs.volume, Member(spec, volumes.name), was.volumes, now.volumes, VolumeName);
    VolumeEditsPatch(codec, Member(spec, inits.name), was.initContainers, now.initContainers, ContainerName);
    ContainerEditsPatch(codecs, Member(spec, containers.name), was.containers, now.containers);
    var parts := [share, restart, volumes, inits, containers];
    after := PartsAreIndependent(spec, parts);
    assert share in parts && restart in parts && volumes in parts && inits in parts && containers in parts;
    OnlyOwnedChanged(spec, after, parts);
  }

  lemma OnlyOwnedChanged(spec: map<string, Json>, after: map<string, Json>, parts: seq<Part>)
    requires forall p <- parts :: p.name in OWNED_SPEC
    requires forall name :: (forall p <- parts :: p.name != name) ==> Member(after, name) == Member(spec, name)
    ensures after - OWNED_SPEC == spec - OWNED_SPEC
  {
    forall name | name !in OWNED_SPEC
      ensures name in after <==> name in spec
      ensures name in after ==> after[name] == spec[name]
    {
      assert Member(after, name) == Member(spec, name);
    }
  }

  lemma VolumesReadBack(codecs: Codecs)
    requires Faithful(codecs)
    ensures ReadsBack(codecs.volume)
  {
  }

  lemma VolumeEditsPatch<T(!new)>(codec: Codec<T>, slot: Option<Json>, was: seq<T>, now: seq<T>, nameOf: T -> string)
    requires ReadsBack(codec) && DecodeList(codec.decode, slot) == Some(was)
    ensures var r := ApplyAllToSlot(slot, AppendEdits(was, now, nameOf, codec.encode));
            && r.Some?
            && DecodeList(codec.decode, r.value) == Some(PatchedList(was, now, nameOf))
            && ItemsStay(slot, r.value)
  {
    hide AppendEdits, ApplyAllToSlot, PatchedList;
    AppendsPatchList(codec, slot, was, now, nameOf);
  }

  // ----- the pod -----

  /** The document changed only in the places that admission owns. */
  predicate Narrow(before: Json, after: Json, containers: nat)
    requires IsPodDocument(before) && IsPodDocument(after)
  {
    && before.members - {"metadata", "spec"} == after.members - {"metadata", "spec"}
    && Metadata(before) - {"annotations"} == Metadata(after) - {"annotations"}
    && Spec(before) - OWNED_SPEC == Spec(after) - OWNED_SPEC
    && ItemsStay(Member(Spec(before), "volumes"), Member(Spec(after), "volumes"))
    && ItemsStay(Member(Spec(before), "initContainers"), Member(Spec(after), "initContainers"))
    && ContainersKept(Member(Spec(before), "containers"), Member(Spec(after), "containers"), containers)
  }

  lemma MetadataEditsPatch(metadata: map<string, Json>, was: map<string, string>, now: map<string, string>)
    returns (after: map<string, Json>)
    requires DecodeStrings(Member(metadata, "annotations")) == Some(was)
    ensures ApplyEdits(Obj(metadata), Under("annotations", AnnotationEdits(was, now))) == Some(Obj(after))
    ensures DecodeStrings(Member(after, "annotations")) == Some(PatchedAnnotations(was, now))
    ensures after - {"annotations"} == metadata - {"annotations"}
  {
    hide DecodeStrings, AnnotationEdits;
    AnnotationEditsPatch(Member(metadata, "annotations"), was, now);
    EditsBecome(metadata, "annotations", AnnotationEdits(was, now));
    after := Edited(metadata, "annotations", AnnotationEdits(was, now));
  }

  /** Edits below a present member that holds an object. */
  lemma EditsInObject(doc: map<string, Json>, name: string, inner: map<string, Json>, edits: seq<Edit>,
        after: map<string, Json>)
    requires Member(doc, name) == Some(Obj(inner)) && ApplyEdits(Obj(inner), edits) == Some(Obj(after))
    requires forall e <- edits :: e.tokens != []
    ensures ApplyEdits(Obj(doc), Under(name, edits)) == Some(Obj(doc[name := Obj(after)]))
  {
    SlotOfDocument(Obj(inner), edits);
    EditsInMember(doc, name, edits);
  }

  /**
   For every two pods and every document of the first one, each operation of the patch applies in
   turn, the result describes the patched pod, and nothing else in the document changes.
   */
  lemma PatchApplies(codecs: Codecs, doc: Json, was: Pod, now: Pod)
    requires Faithful(codecs) && Describes(codecs, doc, was)
    ensures var r := ApplyPatch(doc, Spell("", PodEdits(codecs, was, now)));
            && r.Some?
            && Describes(codecs, r.value, PatchedPod(was, now))
            && Narrow(doc, r.value, |was.containers|)
  {
    hide Faithful, DecodeStrings, DescribesSpec, Under, AnnotationEdits, SpecEdits, ApplyEdits, PatchedAnnotations,
         ItemsStay, ContainersKept;
    var first := Under("metadata", Under("annotations", AnnotationEdits(was.annotations, now.annotations)));
    var second := Under("spec", SpecEdits(codecs, was, now));
    var annotated := MetadataEditsPatch(Metadata(doc), was.annotations, now.annotations);
    var spec := SpecEditsPatch(codecs, Spec(doc), was, now);
    UnderIsBelow("annotations", AnnotationEdits(was.annotations, now.annotations));
    EditsInObject(doc.members, "metadata", Metadata(doc),
                  Under("annotations", AnnotationEdits(was.annotations, now.annotations)), annotated);
    var between := doc.members["metadata" := Obj(annotated)];
    SpecEditsAreBelow(codecs, was, now);
    EditsInObject(between, "spec", Spec(doc), SpecEdits(codecs, was, now), spec);
    EditsConcat(doc, first, second);
    SpelledApplies(doc, PodEdits(codecs, was, now));
    var after := between["spec" := Obj(spec)];
    assert after - {"metadata", "spec"} == doc.members - {"metadata", "spec"};
  }

  lemma UnderIsBelow(token: string, edits: seq<Edit>)
    ensures forall e <- Under(token, edits) :: e.tokens != []
  {
  }

  lemma SpecEditsAreBelow(codecs: Codecs, was: Pod, now: Pod)
    ensures forall e <- SpecEdits(codecs, was, now) :: e.tokens != []
  {
    hide ShareEdits, RestartEdits, AppendEdits, ContainerFieldEdits, ContainerCodec;
  }
}
