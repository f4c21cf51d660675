/**
 How a pod reads as a JSON document.  The JSON form of an environment variable, a mount, a
 volume and of the remaining fields of a container is library code: any codecs will do that
 read back what they write.
 */
module PodJson {
  import opened Options
  import opened Pods
  import opened Json
  import opened JsonPatch

  datatype Codec<!T> = Codec(encode: T -> Json, decode: Json -> Option<T>)

  datatype Codecs = Codecs(
    env: Codec<EnvVar>,
    mount: Codec<VolumeMount>,
    volume: Codec<Volume>,
    encodeSpec: ContainerSpec -> map<string, Json>,
    decodeSpec: map<string, Json> -> Option<ContainerSpec>)

  ghost predicate ReadsBack<T(!new)>(codec: Codec<T>) {
    forall v :: codec.decode(codec.encode(v)) == Some(v)
  }

  const CONTAINER_FIELDS := {"name", "env", "volumeMounts"}

  ghost predicate Faithful(codecs: Codecs) {
    && ReadsBack(codecs.env)
    && ReadsBack(codecs.mount)
    && ReadsBack(codecs.volume)
    && (forall s :: codecs.decodeSpec(codecs.encodeSpec(s)) == Some(s))
    && (forall s :: codecs.encodeSpec(s).Keys !! CONTAINER_FIELDS)
  }

  // ----- writing -----

  function EncodeList<T>(encode: T -> Json, items: seq<T>): Json {
    Arr(seq(|items|, i requires 0 <= i < |items| => encode(items[i])))
  }

  function EncodeStrings(m: map<string, string>): Json {
    Obj(map k | k in m :: Str(m[k]))
  }

  /** Empty lists are left out of the document. */
  function EncodeContainer(codecs: Codecs, c: Container): Json {
    Obj(codecs.encodeSpec(c.spec)
        + map["name" := Str(c.name)]
        + (if c.env == [] then map[] else map["env" := EncodeList(codecs.env.encode, c.env)])
        + (if c.mounts == [] then map[] else map["volumeMounts" := EncodeList(codecs.mount.encode, c.mounts)]))
  }

  // ----- reading: a missing field and null both stand for the empty value -----

  function DecodeItems<T>(decode: Json -> Option<T>, items: seq<Json>): (r: Option<seq<T>>)
    ensures r.Some? <==> forall j <- items :: decode(j).Some?
    ensures r.Some? ==> |r.value| == |items| && forall i | 0 <= i < |items| :: decode(items[i]) == Some(r.value[i])
  {
    if items == [] then Some([])
    else
      match decode(items[0])
      case None => None
      case Some(v) =>
        match DecodeItems(decode, items[1..])
        case None => None
        case Some(rest) => Some([v] + rest)
  }

  function DecodeList<T>(decode: Json -> Option<T>, slot: Option<Json>): Option<seq<T>> {
    match slot
    case None => Some([])
    case Some(Null) => Some([])
    case Some(Arr(items)) => DecodeItems(decode, items)
    case _ => None
  }

  function DecodeString(slot: Option<Json>): Option<string> {
    match slot
    case None => Some("")
    case Some(Null) => Some("")
    case Some(Str(text)) => Some(text)
    case _ => None
  }

  function DecodeBool(slot: Option<Json>): Option<Option<bool>> {
    match slot
    case None => Some(None)
    case Some(Null) => Some(None)
    case Some(Bool(b)) => Some(Some(b))
    case _ => None
  }

  function DecodeStrings(slot: Option<Json>): Option<map<string, string>> {
    match slot
    case None => Some(map[])
    case Some(Null) => Some(map[])
    case Some(Obj(members)) =>
      if forall k <- members :: DecodeString(Some(members[k])).Some?
      then Some(map k | k in members :: DecodeString(Some(members[k])).value)
      else None
    case _ => None
  }

  function DecodeContainer(codecs: Codecs, doc: Json): Option<Container> {
    match doc
    case Obj(members) =>
      var name := DecodeString(Member(members, "name"));
      var spec := codecs.decodeSpec(members - CONTAINER_FIELDS);
      var env := DecodeList(codecs.env.decode, Member(members, "env"));
      var mounts := DecodeList(codecs.mount.decode, Member(members, "volumeMounts"));
      if name.Some? && spec.Some? && env.Some? && mounts.Some?
      then Some(Container(name.value, spec.value, env.value, mounts.value))
      else None
    case _ => None
  }

  /** The codec of whole containers. */
  function ContainerCodec(codecs: Codecs): Codec<Container> {
    Codec(c => EncodeContainer(codecs, c), d => DecodeContainer(codecs, d))
  }

  /** The metadata and the spec of a pod document. */
  predicate IsPodDocument(doc: Json) {
    && doc.Obj?
    && "metadata" in doc.members && doc.members["metadata"].Obj?
    && "spec" in doc.members && doc.members["spec"].Obj?
  }

  function Metadata(doc: Json): map<string, Json>
    requires IsPodDocument(doc)
  {
    doc.members["metadata"].members
  }

  function Spec(doc: Json): map<string, Json>
    requires IsPodDocument(doc)
  {
    doc.members["spec"].members
  }

  /** The document says of every field that admission may change what the pod says. */
  predicate Describes(codecs: Codecs, doc: Json, pod: Pod) {
    && IsPodDocument(doc)
    && DecodeStrings(Member(Metadata(doc), "annotations")) == Some(pod.annotations)
    && DescribesSpec(codecs, Spec(doc), pod)
  }

  predicate DescribesSpec(codecs: Codecs, spec: map<string, Json>, pod: Pod) {
    && DecodeBool(Member(spec, "shareProcessNamespace")) == Some(pod.shareProcessNamespace)
    && DecodeString(Member(spec, "restartPolicy")) == Some(pod.restartPolicy)
    && DecodeList(codecs.volume.decode, Member(spec, "volumes")) == Some(pod.volumes)
    && DecodeList(ContainerCodec(codecs).decode, Member(spec, "initContainers")) == Some(pod.initContainers)
    && DecodeList(ContainerCodec(codecs).decode, Member(spec, "containers")) == Some(pod.containers)
  }

  // ----- reading back what was written -----

  lemma {:induction false} ItemsReadBack<T(!new)>(codec: Codec<T>, items: seq<T>)
    requires ReadsBack(codec)
    ensures DecodeItems(codec.decode, EncodeList(codec.encode, items).items) == Some(items)
  {
    var written := EncodeList(codec.encode, items).items;
    assert forall i | 0 <= i < |items| ::
        written[i] == codec.encode(items[i]) && codec.decode(written[i]) == Some(items[i]);
    var r := DecodeItems(codec.decode, written);
    assert r.Some?;
    assert forall i | 0 <= i < |items| :: Some(r.value[i]) == Some(items[i]);
    assert r.value == items;
  }

  lemma ListReadsBack<T(!new)>(codec: Codec<T>, items: seq<T>)
    requires ReadsBack(codec)
    ensures DecodeList(codec.decode, Some(EncodeList(codec.encode, items))) == Some(items)
  {
    ItemsReadBack(codec, items);
  }

  lemma StringsReadBack(m: map<string, string>)
    ensures DecodeStrings(Some(EncodeStrings(m))) == Some(m)
  {
    var members := EncodeStrings(m).members;
    assert forall k <- members :: DecodeString(Some(members[k])) == Some(m[k]);
    assert DecodeStrings(Some(EncodeStrings(m))).value == m;
  }

  lemma ContainerReadsBack(codecs: Codecs, c: Container)
    requires Faithful(codecs)
    ensures DecodeContainer(codecs, EncodeContainer(codecs, c)) == Some(c)
  {
    hide ReadsBack, DecodeItems, EncodeList;
    var members := EncodeContainer(codecs, c).members;
    var spec := codecs.encodeSpec(c.spec);
    ListReadsBack(codecs.env, c.env);
    ListReadsBack(codecs.mount, c.mounts);
    assert members - CONTAINER_FIELDS == spec;
    assert "env" !in spec && "volumeMounts" !in spec;
    assert Member(members, "name") == Some(Str(c.name));
    assert c.env != [] ==> Member(members, "env") == Some(EncodeList(codecs.env.encode, c.env));
    assert c.mounts != [] ==> Member(members, "volumeMounts") == Some(EncodeList(codecs.mount.encode, c.mounts));
  }

  lemma ContainersReadBack(codecs: Codecs)
    requires Faithful(codecs)
    ensures ReadsBack(ContainerCodec(codecs))
  {
    forall c ensures ContainerCodec(codecs).decode(ContainerCodec(codecs).encode(c)) == Some(c) {
      ContainerReadsBack(codecs, c);
    }
  }
}
