/** What the edits of each part of the admission patch do to the part of the document they address. */
module PodPatchFields {
  import opened Options
  import opened Text
  import opened Pods
  import opened Json
  import opened JsonPatch
  import opened PodJson
  import opened PodPatch

  /** Edits below a present member act on its document. */
  lemma {:induction false} SlotOfDocument(doc: Json, edits: seq<Edit>)
    requires forall e <- edits :: e.tokens != []
    ensures ApplyAllToSlot(Some(doc), edits) ==
            match ApplyEdits(doc, edits) { case None => None case Some(d) => Some(Some(d)) }
    decreases |edits|
  {
    if edits != [] {
      assert edits[0] in edits;
      var next := ApplyEdit(doc, edits[0]);
      if next.Some? {
        SlotOfDocument(next.value, edits[1..]);
      }
    }
  }

  lemma NoEditsOnSlot(slot: Option<Json>)
    ensures ApplyAllToSlot(slot, []) == Some(slot)
  {
  }

  lemma OneEditOnSlot(slot: Option<Json>, kind: Kind, value: Json)
    requires kind == Replace ==> slot.Some?
    ensures ApplyAllToSlot(slot, [Edit(kind, [], value)]) == Some(Some(value))
  {
    assert [Edit(kind, [], value)][1..] == [];
  }

  // ----- lists that only grow -----

  function PatchedList<T>(was: seq<T>, now: seq<T>, nameOf: T -> string): seq<T> {
    was + Fresh(was, now, nameOf)
  }

  function Encoded<T>(items: seq<T>, encode: T -> Json): seq<Json> {
    EncodeList(encode, items).items
  }

  lemma {:induction false} AppendsApply<T>(items: seq<Json>, added: seq<T>, encode: T -> Json)
    ensures ApplyEdits(Arr(items), Appends(added, encode)) == Some(Arr(items + Encoded(added, encode)))
    decreases |added|
  {
    if added == [] {
      assert items + Encoded(added, encode) == items;
    } else {
      var edits := Appends(added, encode);
      assert ApplyEdit(Arr(items), edits[0]) == Some(Arr(items + [encode(added[0])]));
      assert edits[1..] == Appends(added[1..], encode);
      AppendsApply(items + [encode(added[0])], added[1..], encode);
      assert items + [encode(added[0])] + Encoded(added[1..], encode) == items + Encoded(added, encode);
    }
  }

  lemma DecodeItemsConcat<T>(decode: Json -> Option<T>, a: seq<Json>, b: seq<Json>)
    requires DecodeItems(decode, a).Some? && DecodeItems(decode, b).Some?
    ensures DecodeItems(decode, a + b) == Some(DecodeItems(decode, a).value + DecodeItems(decode, b).value)
  {
    hide DecodeItems;
    forall j <- a + b ensures decode(j).Some? {
      assert j in a || j in b;
    }
    assert DecodeItems(decode, a + b).Some?;
    var both := DecodeItems(decode, a + b).value;
    var parts := DecodeItems(decode, a).value + DecodeItems(decode, b).value;
    forall i | 0 <= i < |both| ensures both[i] == parts[i] {
      assert decode((a + b)[i]) == Some(both[i]);
      assert decode((a + b)[i]) == Some(parts[i]);
    }
    assert both == parts;
  }

  lemma {:induction false} FreshOfNothing<T>(now: seq<T>, nameOf: T -> string)
    ensures Fresh([], now, nameOf) == now
  {
    if now != [] {
      FreshOfNothing(now[1..], nameOf);
    }
  }

  lemma NothingFresh<T>(was: seq<T>, nameOf: T -> string)
    ensures Fresh(was, [], nameOf) == []
  {
  }

  /** The list grows by the items whose names it did not have; the items it had stay as they are. */
  lemma AppendsPatchList<T(!new)>(codec: Codec<T>, slot: Option<Json>, was: seq<T>, now: seq<T>, nameOf: T -> string)
    requires ReadsBack(codec) && DecodeList(codec.decode, slot) == Some(was)
    ensures var r := ApplyAllToSlot(slot, AppendEdits(was, now, nameOf, codec.encode));
            && r.Some?
            && DecodeList(codec.decode, r.value) == Some(PatchedList(was, now, nameOf))
            && (was != [] ==>
                  && slot.Some? && slot.value.Arr?
                  && r.value == Some(Arr(slot.value.items + Encoded(Fresh(was, now, nameOf), codec.encode))))
  {
    hide DecodeItems, ReadsBack, Fresh;
    var edits := AppendEdits(was, now, nameOf, codec.encode);
    FreshOfNothing(now, nameOf);
    if now == [] {
      NothingFresh(was, nameOf);
      assert PatchedList(was, now, nameOf) == was;
      if was != [] {
        assert slot.value.items + [] == slot.value.items;
      }
    } else if was == [] {
      ItemsReadBack(codec, now);
      var whole := Some(EncodeList(codec.encode, now));
      assert edits[1..] == [];
      assert ApplyAllToSlot(slot, edits) == ApplyAllToSlot(whole, []);
      assert [] + now == now;
    } else {
      var added := Fresh(was, now, nameOf);
      AppendsApply(slot.value.items, added, codec.encode);
      SlotOfDocument(slot.value, edits);
      ItemsReadBack(codec, added);
      DecodeItemsConcat(codec.decode, slot.value.items, Encoded(added, codec.encode));
    }
  }

  // ----- environments -----

  function PatchedEnv(was: seq<EnvVar>, now: seq<EnvVar>): seq<EnvVar> {
    if now == [] then was else now
  }

  lemma {:induction false} ChangesApply(codec: Codec<EnvVar>, items: seq<Json>, was: seq<EnvVar>, now: seq<EnvVar>,
        upTo: nat)
    requires ReadsBack(codec) && DecodeItems(codec.decode, items) == Some(was)
    requires upTo <= |was| <= |now|
    ensures var r := ApplyEdits(Arr(items), ChangedEdits(was, now, codec.encode, upTo));
            && r.Some? && r.value.Arr?
            && DecodeItems(codec.decode, r.value.items) == Some(now[..upTo] + was[upTo..])
  {
    hide DecodeItems, PrintNat, ReadsBack;
    if upTo == 0 {
      assert now[..0] + was[0..] == was;
    } else {
      var i := upTo - 1;
      ChangesApply(codec, items, was, now, i);
      var changed := ChangedEdits(was, now, codec.encode, i);
      var last := if was[i] == now[i] then [] else [Edit(Replace, [PrintNat(i)], codec.encode(now[i]))];
      EditsConcat(Arr(items), changed, last);
      ChangeApplies(codec, ApplyEdits(Arr(items), changed).value.items, was, now, i);
    }
  }

  lemma ChangeApplies(codec: Codec<EnvVar>, items: seq<Json>, was: seq<EnvVar>, now: seq<EnvVar>, i: nat)
    requires ReadsBack(codec) && i < |was| <= |now|
    requires DecodeItems(codec.decode, items) == Some(now[..i] + was[i..])
    ensures var r := ApplyEdits(Arr(items),
                       if was[i] == now[i] then [] else [Edit(Replace, [PrintNat(i)], codec.encode(now[i]))]);
            && r.Some? && r.value.Arr?
            && DecodeItems(codec.decode, r.value.items) == Some(now[..i + 1] + was[i + 1..])
  {
    hide DecodeItems, PrintNat, ParseIndex, ReadsBack;
    if was[i] == now[i] {
      assert now[..i] + was[i..] == now[..i + 1] + was[i + 1..];
    } else {
      IndexOfPrinted(i);
      PrintedIsPlain(i);
      var edits := [Edit(Replace, [PrintNat(i)], codec.encode(now[i]))];
      assert ApplyEdit(Arr(items), edits[0]) == Some(Arr(items[i := codec.encode(now[i])]));
      assert edits[1..] == [];
      UpdateDecodes(codec, items, i, now[i]);
      assert (now[..i] + was[i..])[i := now[i]] == now[..i + 1] + was[i + 1..];
    }
  }

  lemma UpdateDecodes<T(!new)>(codec: Codec<T>, items: seq<Json>, i: nat, v: T)
    requires ReadsBack(codec) && i < |items| && DecodeItems(codec.decode, items).Some?
    ensures DecodeItems(codec.decode, items[i := codec.encode(v)]) ==
            Some(DecodeItems(codec.decode, items).value[i := v])
  {
    var after := items[i := codec.encode(v)];
    forall j <- after ensures codec.decode(j).Some? {
      assert j == codec.encode(v) || j in items;
    }
    assert DecodeItems(codec.decode, after).value == DecodeItems(codec.decode, items).value[i := v];
  }

  /** Whatever became of the environment, the edits rebuild it, unless it was emptied. */
  lemma EnvEditsPatchEnv(codec: Codec<EnvVar>, slot: Option<Json>, was: seq<EnvVar>, now: seq<EnvVar>)
    requires ReadsBack(codec) && DecodeList(codec.decode, slot) == Some(was)
    ensures var r := ApplyAllToSlot(slot, EnvEdits(was, now, codec.encode));
            r.Some? && DecodeList(codec.decode, r.value) == Some(PatchedEnv(was, now))
  {
    hide DecodeItems, EncodeList, ReadsBack, ChangedEdits, Appends, SameNames, ApplyAllToSlot, ApplyEdits;
    var edits := EnvEdits(was, now, codec.encode);
    if now == [] {
      NoEditsOnSlot(slot);
    } else {
      if was == [] || |now| < |was| || !SameNames(was, now) {
        ListReadsBack(codec, now);
        OneEditOnSlot(slot, if was == [] then Add else Replace, EncodeList(codec.encode, now));
      } else {
        ChangesThenAppends(codec, slot.value.items, was, now);
        ChangesAreBelow(codec.encode, was, now, |was|);
        AppendsAreBelow(now[|was|..], codec.encode);
        SlotOfDocument(slot.value, edits);
      }
    }
  }

  lemma Rejoin<T>(was: seq<T>, now: seq<T>)
    requires |was| <= |now|
    ensures now[..|was|] + was[|was|..] + now[|was|..] == now
  {
  }

  lemma ChangesThenAppends(codec: Codec<EnvVar>, items: seq<Json>, was: seq<EnvVar>, now: seq<EnvVar>)
    requires ReadsBack(codec) && DecodeItems(codec.decode, items) == Some(was)
    requires |was| <= |now|
    ensures var edits := ChangedEdits(was, now, codec.encode, |was|) + Appends(now[|was|..], codec.encode);
            var r := ApplyEdits(Arr(items), edits);
            r.Some? && r.value.Arr? && DecodeItems(codec.decode, r.value.items) == Some(now)
  {
    hide DecodeItems, ChangedEdits, ReadsBack, EncodeList, ApplyEdit;
    var changed := ChangedEdits(was, now, codec.encode, |was|);
    var tail := now[|was|..];
    ChangesApply(codec, items, was, now, |was|);
    EditsConcat(Arr(items), changed, Appends(tail, codec.encode));
    var before := ApplyEdits(Arr(items), changed).value.items;
    AppendsApply(before, tail, codec.encode);
    ItemsReadBack(codec, tail);
    DecodeItemsConcat(codec.decode, before, Encoded(tail, codec.encode));
    Rejoin(was, now);
  }

  lemma AppendsAreBelow<T>(items: seq<T>, encode: T -> Json)
    ensures forall e <- Appends(items, encode) :: e.tokens != []
  {
  }

  lemma {:induction false} ChangesAreBelow(encode: EnvVar -> Json, was: seq<EnvVar>, now: seq<EnvVar>, upTo: nat)
    requires upTo <= |was| <= |now|
    ensures forall e <- ChangedEdits(was, now, encode, upTo) :: e.tokens != []
  {
    if upTo > 0 {
      ChangesAreBelow(encode, was, now, upTo - 1);
    }
  }

  // ----- annotations -----

  function PatchedAnnotations(was: map<string, string>, now: map<string, string>): map<string, string> {
    was + now
  }

  function Restricted(m: map<string, string>, keys: seq<string>): map<string, string> {
    map k | k in m && k in keys :: m[k]
  }

  lemma KeyApplies(members: map<string, Json>, before: map<string, string>, kind: Kind, key: string, value: string)
    requires DecodeStrings(Some(Obj(members))) == Some(before)
    requires kind == Replace ==> key in before
    ensures ApplyEdits(Obj(members), [Edit(kind, [key], Str(value))]) == Some(Obj(members[key := Str(value)]))
    ensures DecodeStrings(Some(Obj(members[key := Str(value)]))) == Some(before[key := value])
  {
    var e := Edit(kind, [key], Str(value));
    assert ApplyEdit(Obj(members), e) == Some(Obj(members[key := Str(value)]));
    assert [e][1..] == [];
    var after := members[key := Str(value)];
    assert forall k <- after :: DecodeString(Some(after[k])).Some?;
    assert DecodeStrings(Some(Obj(after))).value == before[key := value];
  }

  lemma NothingRestricted(m: map<string, string>)
    ensures Restricted(m, []) == map[]
  {
  }

  lemma RestrictedGrows(was: map<string, string>, now: map<string, string>, keys: seq<string>)
    requires keys != [] && forall k <- keys :: k in now
    ensures var n := |keys| - 1;
            var before := was + Restricted(now, keys[..n]);
            && was + Restricted(now, keys) == before[keys[n] := now[keys[n]]]
            && (keys[n] in was && was[keys[n]] == now[keys[n]] ==> before[keys[n] := now[keys[n]]] == before)
  {
    var n := |keys| - 1;
    assert keys == keys[..n] + [keys[n]];
  }

  lemma {:induction false} KeysApply(members: map<string, Json>, was: map<string, string>, now: map<string, string>,
        keys: seq<string>)
    requires DecodeStrings(Some(Obj(members))) == Some(was)
    requires forall k <- keys :: k in now
    ensures var r := ApplyEdits(Obj(members), KeyEdits(was, now, keys));
            && r.Some? && r.value.Obj?
            && DecodeStrings(r) == Some(was + Restricted(now, keys))
  {
    hide DecodeStrings, Restricted, ApplyEdit;
    if keys == [] {
      NothingRestricted(now);
      assert was + Restricted(now, keys) == was;
    } else {
      var init, key := keys[..|keys| - 1], keys[|keys| - 1];
      KeysApply(members, was, now, init);
      EditsConcat(Obj(members), KeyEdits(was, now, init), KeyEdit(was, now, key));
      var soFar := ApplyEdits(Obj(members), KeyEdits(was, now, init)).value.members;
      var before := was + Restricted(now, init);
      RestrictedGrows(was, now, keys);
      if key !in was || was[key] != now[key] {
        KeyApplies(soFar, before, if key in was then Replace else Add, key, now[key]);
      }
    }
  }

  lemma KeyEditsAreBelow(was: map<string, string>, now: map<string, string>, keys: seq<string>)
    requires forall k <- keys :: k in now
    ensures forall e <- KeyEdits(was, now, keys) :: e.tokens != []
  {
    if keys != [] {
      KeyEditsAreBelow(was, now, keys[..|keys| - 1]);
    }
  }

  /** Every new annotation is set, and none is removed. */
  lemma AnnotationEditsPatch(slot: Option<Json>, was: map<string, string>, now: map<string, string>)
    requires DecodeStrings(slot) == Some(was)
    ensures var r := ApplyAllToSlot(slot, AnnotationEdits(was, now));
            r.Some? && DecodeStrings(r.value) == Some(PatchedAnnotations(was, now))
  {
    hide EncodeStrings, KeyEdits, ApplyAllToSlot, ApplyEdits;
    var edits := AnnotationEdits(was, now);
    if now == map[] {
      NoEditsOnSlot(slot);
      assert was + now == was;
    } else if was == map[] {
      StringsReadBack(now);
      OneEditOnSlot(slot, Add, EncodeStrings(now));
      assert was + now == now;
    } else {
      var keys := InOrder(now.Keys);
      assert slot.value.Obj?;
      KeysApply(slot.value.members, was, now, keys);
      KeyEditsAreBelow(was, now, keys);
      SlotOfDocument(slot.value, edits);
      assert was + Restricted(now, keys) == was + now;
    }
  }

  // ----- single fields -----

  function PatchedShare(was: Option<bool>, now: Option<bool>): Option<bool> {
    if now.Some? then now else was
  }

  function PatchedRestart(was: string, now: string): string {
    if now != "" then now else was
  }

  lemma ShareEditsPatch(slot: Option<Json>, was: Option<bool>, now: Option<bool>)
    requires DecodeBool(slot) == Some(was)
    ensures var r := ApplyAllToSlot(slot, ShareEdits(was, now));
            r.Some? && DecodeBool(r.value) == Some(PatchedShare(was, now))
  {
    if was != now && now.Some? {
      OneEditOnSlot(slot, if was.Some? then Replace else Add, Bool(now.value));
    }
  }

  lemma RestartEditsPatch(slot: Option<Json>, was: string, now: string)
    requires DecodeString(slot) == Some(was)
    ensures var r := ApplyAllToSlot(slot, RestartEdits(was, now));
            r.Some? && DecodeString(r.value) == Some(PatchedRestart(was, now))
  {
    if was != now && now != "" {
      OneEditOnSlot(slot, if was != "" then Replace else Add, Str(now));
    }
  }

  // ----- fields of containers -----

  function PatchedFields(was: Container, now: Container): Container {
    was.(env := PatchedEnv(was.env, now.env), mounts := PatchedList(was.mounts, now.mounts, MountName))
  }

  function PatchedContainer(was: Container, now: seq<Container>): Container {
    match LastNamed(now, was.name)
    case None => was
    case Some(c) => PatchedFields(was, c)
  }

  /** Two documents that differ in no other member than the named ones. */
  predicate SameOutside(a: Json, b: Json, names: set<string>) {
    a.Obj? && b.Obj? && a.members - names == b.members - names
  }

  const PATCHED_FIELDS := {"env", "volumeMounts"}

  lemma FieldEditsPatch(codecs: Codecs, doc: Json, was: Container, now: Container)
    requires Faithful(codecs) && DecodeContainer(codecs, doc) == Some(was)
    ensures var r := ApplyEdits(doc, FieldEdits(codecs, was, now));
            && r.Some?
            && DecodeContainer(codecs, r.value) == Some(PatchedFields(was, now))
            && SameOutside(doc, r.value, PATCHED_FIELDS)
  {
    hide FieldEdits, EnvEdits, AppendEdits, DecodeList, Under, PatchedList, PatchedEnv;
    FieldEditsParts(codecs, was, now);
    var members := doc.members;
    var env := EnvEdits(was.env, now.env, codecs.env.encode);
    var mounts := AppendEdits(was.mounts, now.mounts, MountName, codecs.mount.encode);
    EditsConcat(doc, Under("env", env), Under("volumeMounts", mounts));
    EnvEditsPatchEnv(codecs.env, Member(members, "env"), was.env, now.env);
    EditsBecome(members, "env", env);
    var withEnv := Edited(members, "env", env);
    AppendsPatchList(codecs.mount, Member(withEnv, "volumeMounts"), was.mounts, now.mounts, MountName);
    EditsBecome(withEnv, "volumeMounts", mounts);
    var after := Edited(withEnv, "volumeMounts", mounts);
    assert after - CONTAINER_FIELDS == withEnv - CONTAINER_FIELDS == members - CONTAINER_FIELDS;
    assert after - PATCHED_FIELDS == withEnv - PATCHED_FIELDS == members - PATCHED_FIELDS;
  }
}
