/** What the mutations of an admission run can make of a pod, and when the patch rebuilds it. */
module PodHistories {
  import opened Options
  import opened Pods
  import opened Json
  import opened JsonPatch
  import opened PodJson
  import opened PodPatch
  import opened PodPatchFields
  import opened PodPatchCorrectness

  // ----- pods that follow from another by additions -----

  /** The list kept its items in front and gained only items with names it did not have. */
  ghost predicate Appended<T>(was: seq<T>, now: seq<T>, nameOf: T -> string) {
    was <= now && forall i | |was| <= i < |now| :: !HasName(was, nameOf, nameOf(now[i]))
  }

  ghost predicate ContainerFollows(was: Container, now: Container) {
    && now == was.(env := now.env, mounts := now.mounts)
    && (now.env == [] ==> was.env == [])
    && Appended(was.mounts, now.mounts, MountName)
  }

  ghost predicate ContainersFollow(was: seq<Container>, now: seq<Container>) {
    && |was| <= |now|
    && (forall i | 0 <= i < |was| :: ContainerFollows(was[i], now[i]))
    && (forall i | |was| <= i < |now| :: !HasName(was, ContainerName, now[i].name))
  }

  ghost predicate PodFollows(was: Pod, now: Pod) {
    && now.identity == was.identity
    && was.annotations.Keys <= now.annotations.Keys
    && (now.shareProcessNamespace.None? ==> was.shareProcessNamespace.None?)
    && (now.restartPolicy == "" ==> was.restartPolicy == "")
    && Appended(was.volumes, now.volumes, VolumeName)
    && Appended(was.initContainers, now.initContainers, ContainerName)
    && ContainersFollow(was.containers, now.containers)
  }

  // ----- when the patch rebuilds the new pod -----

  lemma {:induction false} FreshSplits<T>(was: seq<T>, now: seq<T>, nameOf: T -> string, n: nat)
    requires n <= |now|
    requires forall i | 0 <= i < n :: HasName(was, nameOf, nameOf(now[i]))
    ensures Fresh(was, now, nameOf) == Fresh(was, now[n..], nameOf)
  {
    if n > 0 {
      FreshSplits(was, now[1..], nameOf, n - 1);
      assert now[1..][n - 1..] == now[n..];
    } else {
      assert now[0..] == now;
    }
  }

  lemma {:induction false} AllFresh<T>(was: seq<T>, now: seq<T>, nameOf: T -> string)
    requires forall i | 0 <= i < |now| :: !HasName(was, nameOf, nameOf(now[i]))
    ensures Fresh(was, now, nameOf) == now
  {
    if now != [] {
      AllFresh(was, now[1..], nameOf);
      assert now == [now[0]] + now[1..];
    }
  }

  lemma {:induction false} FreshHaveNewNames<T>(was: seq<T>, now: seq<T>, nameOf: T -> string)
    ensures forall i | 0 <= i < |Fresh(was, now, nameOf)| :: !HasName(was, nameOf, nameOf(Fresh(was, now, nameOf)[i]))
  {
    if now != [] {
      FreshHaveNewNames(was, now[1..], nameOf);
    }
  }

  /** A list is rebuilt exactly when it was only appended to, under new names. */
  lemma ListRebuiltIff<T>(was: seq<T>, now: seq<T>, nameOf: T -> string)
    ensures PatchedList(was, now, nameOf) == now <==> Appended(was, now, nameOf)
  {
    FreshHaveNewNames(was, now, nameOf);
    var patched := PatchedList(was, now, nameOf);
    if patched == now {
      forall i | |was| <= i < |now| ensures !HasName(was, nameOf, nameOf(now[i])) {
        assert now[i] == Fresh(was, now, nameOf)[i - |was|];
      }
    }
    if Appended(was, now, nameOf) {
      FreshOfAppended(was, now, nameOf);
      assert now == was + now[|was|..];
    }
  }

  lemma FreshOfAppended<T>(was: seq<T>, now: seq<T>, nameOf: T -> string)
    requires |was| <= |now|
    requires forall i | 0 <= i < |was| :: nameOf(now[i]) == nameOf(was[i])
    requires forall i | |was| <= i < |now| :: !HasName(was, nameOf, nameOf(now[i]))
    ensures Fresh(was, now, nameOf) == now[|was|..]
  {
    FreshSplits(was, now, nameOf, |was|);
    AllFresh(was, now[|was|..], nameOf);
  }

  lemma {:induction false} LastNamedIs(containers: seq<Container>, i: nat)
    requires i < |containers|
    requires forall k | i < k < |containers| :: containers[k].name != containers[i].name
    ensures LastNamed(containers, containers[i].name) == Some(containers[i])
  {
    if i < |containers| - 1 {
      LastNamedIs(containers[..|containers| - 1], i);
    }
  }

  predicate IsLastOfName(containers: seq<Container>, j: nat) {
    j < |containers| && forall k | j < k < |containers| :: containers[k].name != containers[j].name
  }

  lemma {:induction false} LastOfName(containers: seq<Container>, i: nat) returns (j: nat)
    requires i < |containers|
    ensures i <= j && IsLastOfName(containers, j) && containers[j].name == containers[i].name
    decreases |containers| - i
  {
    if next: nat :| i < next < |containers| && containers[next].name == containers[i].name {
      j := LastOfName(containers, next);
    } else {
      j := i;
    }
  }

  /** Names stay in place, and what is behind them has new names. */
  ghost predicate NamesFollow(was: seq<Container>, now: seq<Container>) {
    && |was| <= |now|
    && (forall k | 0 <= k < |was| :: now[k].name == was[k].name)
    && (forall k | |was| <= k < |now| :: !HasName(was, ContainerName, now[k].name))
  }

  lemma LastIsFoundInPlace(was: seq<Container>, now: seq<Container>, j: nat)
    requires NamesFollow(was, now) && IsLastOfName(was, j)
    ensures LastNamed(now, was[j].name) == Some(now[j])
  {
    forall k | j < k < |now| ensures now[k].name != now[j].name {
      if k >= |was| {
        assert !HasName(was, ContainerName, now[k].name);
        assert ContainerName(was[j]) == now[j].name;
      }
    }
    LastNamedIs(now, j);
  }

  lemma FieldsRebuiltIff(was: Container, now: Container)
    ensures PatchedFields(was, now) == now <==> ContainerFollows(was, now)
  {
    ListRebuiltIff(was.mounts, now.mounts, MountName);
  }

  lemma PatchedKeepsName(was: Container, now: seq<Container>)
    ensures PatchedContainer(was, now).name == was.name
  {
  }

  /** Every old container ends as if it had changed like the last one of its name. */
  ghost predicate LastDecides(was: seq<Container>, now: seq<Container>)
    requires |was| <= |now|
  {
    forall i, j: nat | 0 <= i <= j && IsLastOfName(was, j) && was[i].name == was[j].name ::
      now[i] == PatchedFields(was[i], now[j])
  }

  lemma FollowersKeepNames(was: seq<Container>, now: seq<Container>)
    requires ContainersFollow(was, now)
    ensures NamesFollow(was, now)
  {
    hide ContainerFollows;
    forall k | 0 <= k < |was| ensures now[k].name == was[k].name {
      FollowerKeepsName(was[k], now[k]);
    }
  }

  lemma PatchedLikeTheLast(was: seq<Container>, now: seq<Container>, i: nat, j: nat)
    requires NamesFollow(was, now) && i <= j && IsLastOfName(was, j) && was[i].name == was[j].name
    ensures PatchedContainer(was[i], now) == PatchedFields(was[i], now[j])
  {
    LastIsFoundInPlace(was, now, j);
  }

  lemma ContainersRebuilt(was: seq<Container>, now: seq<Container>)
    requires ContainersFollow(was, now) && LastDecides(was, now)
    ensures PatchedContainers(was, now) == now
  {
    hide LastNamed, Fresh, ContainerFollows, PatchedFields, PatchedContainer;
    FollowersKeepNames(was, now);
    FreshOfAppended(was, now, ContainerName);
    forall i | 0 <= i < |was| ensures PatchedContainer(was[i], now) == now[i] {
      var j := LastOfName(was, i);
      PatchedLikeTheLast(was, now, i, j);
    }
    assert now == now[..|was|] + now[|was|..];
    assert FirstPatched(was, now, |was|) == now[..|was|];
  }

  lemma FollowerKeepsName(was: Container, now: Container)
    requires ContainerFollows(was, now)
    ensures now.name == was.name
  {
  }

  lemma RebuiltContainersFollow(was: seq<Container>, now: seq<Container>)
    requires PatchedContainers(was, now) == now
    ensures ContainersFollow(was, now) && LastDecides(was, now)
  {
    hide LastNamed, Fresh, ContainerFollows, PatchedFields, PatchedContainer;
    RebuiltNamesFollow(was, now);
    forall i, j: nat | 0 <= i <= j && IsLastOfName(was, j) && was[i].name == was[j].name
      ensures now[i] == PatchedFields(was[i], now[j])
    {
      assert FirstPatched(was, now, |was|)[i] == PatchedContainer(was[i], now);
      PatchedLikeTheLast(was, now, i, j);
    }
    forall i | 0 <= i < |was| ensures ContainerFollows(was[i], now[i]) {
      var j := LastOfName(was, i);
      PatchedFieldsFollow(was[i], now[j]);
    }
  }

  lemma RebuiltNamesFollow(was: seq<Container>, now: seq<Container>)
    requires PatchedContainers(was, now) == now
    ensures NamesFollow(was, now)
  {
    hide LastNamed, Fresh, PatchedFields, PatchedContainer;
    FreshHaveNewNames(was, now, ContainerName);
    forall k | 0 <= k < |was| ensures now[k].name == was[k].name {
      assert FirstPatched(was, now, |was|)[k] == PatchedContainer(was[k], now);
      PatchedKeepsName(was[k], now);
    }
    forall i | |was| <= i < |now| ensures !HasName(was, ContainerName, now[i].name) {
      assert now[i] == Fresh(was, now, ContainerName)[i - |was|];
      assert ContainerName(now[i]) == now[i].name;
    }
  }

  lemma PatchedFieldsFollow(was: Container, now: Container)
    ensures ContainerFollows(was, PatchedFields(was, now))
  {
    FreshHaveNewNames(was.mounts, now.mounts, MountName);
  }

  /**
   The patch from one pod to another rebuilds the second exactly when it follows from the first by
   additions and every old container changed like the last one of its name.
   */
  lemma AnyPodRebuiltIff(was: Pod, now: Pod)
    ensures PatchedPod(was, now) == now
            <==> PodFollows(was, now) && LastDecides(was.containers, now.containers)
  {
    hide PatchedList, PatchedContainers, Appended, ContainerFollows, LastDecides;
    ListRebuiltIff(was.volumes, now.volumes, VolumeName);
    ListRebuiltIff(was.initContainers, now.initContainers, ContainerName);
    if PodFollows(was, now) && LastDecides(was.containers, now.containers) {
      ContainersRebuilt(was.containers, now.containers);
      assert was.annotations + now.annotations == now.annotations;
    }
    if PatchedPod(was, now) == now {
      RebuiltContainersFollow(was.containers, now.containers);
      assert was.annotations.Keys <= (was.annotations + now.annotations).Keys;
    }
  }

  /** Old containers that share a name are equal before and equal after. */
  ghost predicate TwinsStayEqual(was: seq<Container>, now: seq<Container>)
    requires |was| <= |now|
  {
    forall i, j | 0 <= i < j < |was| && was[i].name == was[j].name :: was[i] == was[j] && now[i] == now[j]
  }

  lemma EqualTwinsDecide(was: seq<Container>, now: seq<Container>)
    requires ContainersFollow(was, now) && TwinsStayEqual(was, now)
    ensures LastDecides(was, now)
  {
    hide PatchedFields, ContainerFollows;
    forall i, j: nat | 0 <= i <= j && IsLastOfName(was, j) && was[i].name == was[j].name
      ensures now[i] == PatchedFields(was[i], now[j])
    {
      FieldsRebuiltIff(was[j], now[j]);
    }
  }

  /** Repeated names do no harm while their containers stay equal, and then additions are enough. */
  lemma EqualTwinsAreRebuilt(was: Pod, now: Pod)
    requires PodFollows(was, now) && TwinsStayEqual(was.containers, now.containers)
    ensures PatchedPod(was, now) == now
  {
    EqualTwinsDecide(was.containers, now.containers);
    AnyPodRebuiltIff(was, now);
  }

  /** With distinct names the patch rebuilds the second pod exactly when it follows from the first by additions. */
  lemma PodRebuiltIff(was: Pod, now: Pod)
    requires DistinctNames(was.containers, ContainerName)
    ensures PatchedPod(was, now) == now <==> PodFollows(was, now)
  {
    hide PatchedPod;
    AnyPodRebuiltIff(was, now);
    if PodFollows(was, now) {
      DistinctAreNoTwins(was.containers, now.containers);
      EqualTwinsAreRebuilt(was, now);
    }
  }

  lemma DistinctAreNoTwins(was: seq<Container>, now: seq<Container>)
    requires DistinctNames(was, ContainerName) && |was| <= |now|
    ensures TwinsStayEqual(was, now)
  {
    forall i, j | 0 <= i < j < |was| ensures was[i].name != was[j].name {
      assert ContainerName(was[i]) != ContainerName(was[j]);
    }
  }

  // ----- following is a preorder -----

  lemma ContainerFollowsItself(c: Container)
    ensures ContainerFollows(c, c)
  {
  }

  lemma PodFollowsItself(pod: Pod)
    ensures PodFollows(pod, pod)
  {
  }

  lemma NamesStay<T>(a: seq<T>, b: seq<T>, nameOf: T -> string, name: string)
    requires |a| <= |b| && forall i | 0 <= i < |a| :: nameOf(a[i]) == nameOf(b[i])
    ensures HasName(a, nameOf, name) ==> HasName(b, nameOf, name)
  {
  }

  lemma AppendedTwice<T>(a: seq<T>, b: seq<T>, c: seq<T>, nameOf: T -> string)
    requires Appended(a, b, nameOf) && Appended(b, c, nameOf)
    ensures Appended(a, c, nameOf)
  {
    forall i | |a| <= i < |c| ensures !HasName(a, nameOf, nameOf(c[i])) {
      if i < |b| {
        assert c[i] == b[i];
      } else {
        NamesStay(a, b, nameOf, nameOf(c[i]));
      }
    }
  }

  lemma ContainerFollowsTwice(a: Container, b: Container, c: Container)
    requires ContainerFollows(a, b) && ContainerFollows(b, c)
    ensures ContainerFollows(a, c)
  {
    AppendedTwice(a.mounts, b.mounts, c.mounts, MountName);
  }

  lemma ContainersFollowTwice(a: seq<Container>, b: seq<Container>, c: seq<Container>)
    requires ContainersFollow(a, b) && ContainersFollow(b, c)
    ensures ContainersFollow(a, c)
  {
    hide ContainerFollows;
    forall i | 0 <= i < |a| ensures ContainerFollows(a[i], c[i]) && a[i].name == b[i].name {
      ContainerFollowsTwice(a[i], b[i], c[i]);
      FollowerKeepsName(a[i], b[i]);
    }
    forall i | |a| <= i < |c| ensures !HasName(a, ContainerName, c[i].name) {
      if i < |b| {
        FollowerKeepsName(b[i], c[i]);
      } else {
        NamesStay(a, b, ContainerName, c[i].name);
      }
    }
  }

  lemma PodFollowsTwice(a: Pod, b: Pod, c: Pod)
    requires PodFollows(a, b) && PodFollows(b, c)
    ensures PodFollows(a, c)
  {
    hide Appended, ContainersFollow;
    AppendedTwice(a.volumes, b.volumes, c.volumes, VolumeName);
    AppendedTwice(a.initContainers, b.initContainers, c.initContainers, ContainerName);
    ContainersFollowTwice(a.containers, b.containers, c.containers);
  }

  // ----- mutations -----

  datatype Mutation =
    | AddVolume(volume: Volume)
    | AddContainer(container: Container)
    | AddInitContainer(container: Container)
    | MountOnAll(mount: VolumeMount)
    | MountOnNamed(name: string, mount: VolumeMount)
    | MountOnOne(index: nat, mount: VolumeMount)
    | UpdateEnv(index: nat, incoming: seq<EnvVar>, resolve: Option<Resolver>)
    | SetValue(index: nat, position: nat, value: string)
    | MoveToEnd(index: nat, position: nat, merged: EnvVar)
    | Annotate(key: string, value: string)
    | ResetSpec

  /** An environment with one variable replaced by another at its end. */
  function MovedToEnd(env: seq<EnvVar>, position: nat, merged: EnvVar): seq<EnvVar>
    requires position < |env|
  {
    env[..position] + env[position + 1..] + [merged]
  }

  /** Positions that the pod does not have change nothing. */
  function Mutated(pod: Pod, m: Mutation): Pod {
    match m
    case AddVolume(v) => pod.(volumes := AddNamed(pod.volumes, VolumeName, v))
    case AddContainer(c) => pod.(containers := AddNamed(pod.containers, ContainerName, c))
    case AddInitContainer(c) => pod.(initContainers := AddNamed(pod.initContainers, ContainerName, c))
    case MountOnAll(mount) => pod.(containers := WithMountOnAll(pod.containers, mount))
    case MountOnNamed(name, mount) => pod.(containers := WithMountOnNamed(pod.containers, name, mount))
    case MountOnOne(i, mount) =>
      if i < |pod.containers| then WithContainer(pod, i, WithMount(pod.containers[i], mount)) else pod
    case UpdateEnv(i, incoming, resolve) =>
      if i < |pod.containers| then WithEnv(pod, i, WithEnvVars(pod.containers[i].env, incoming, resolve)) else pod
    case SetValue(i, position, value) =>
      if i < |pod.containers| && position < |pod.containers[i].env| then
        var env := pod.containers[i].env;
        WithEnv(pod, i, env[position := env[position].(value := value)])
      else pod
    case MoveToEnd(i, position, merged) =>
      if i < |pod.containers| && position < |pod.containers[i].env|
      then WithEnv(pod, i, MovedToEnd(pod.containers[i].env, position, merged)) else pod
    case Annotate(key, value) => pod.(annotations := pod.annotations[key := value])
    case ResetSpec => pod.(shareProcessNamespace := Some(true), restartPolicy := "Always")
  }

  function WithContainer(pod: Pod, i: nat, c: Container): Pod
    requires i < |pod.containers|
  {
    pod.(containers := pod.containers[i := c])
  }

  function WithEnv(pod: Pod, i: nat, env: seq<EnvVar>): Pod
    requires i < |pod.containers|
  {
    WithContainer(pod, i, pod.containers[i].(env := env))
  }

  function MutatedByAll(pod: Pod, mutations: seq<Mutation>): Pod {
    if mutations == [] then pod
    else Mutated(MutatedByAll(pod, mutations[..|mutations| - 1]), mutations[|mutations| - 1])
  }

  /** One mutation is a history, and histories go on where the one before ended. */
  lemma {:induction false} HistoriesGoOn(pod: Pod, a: seq<Mutation>, b: seq<Mutation>)
    ensures MutatedByAll(pod, []) == pod
    ensures MutatedByAll(pod, a + b) == MutatedByAll(MutatedByAll(pod, a), b)
    ensures forall m :: MutatedByAll(pod, [m]) == Mutated(pod, m)
    decreases |b|
  {
    hide Mutated;
    forall m ensures MutatedByAll(pod, [m]) == Mutated(pod, m) {
      assert [m][..0] == [];
    }
    if b == [] {
      assert a + b == a;
    } else {
      var init := b[..|b| - 1];
      assert (a + b)[..|a + b| - 1] == a + init;
      HistoriesGoOn(pod, a, init);
    }
  }

  /** Additions put the new thing last, unless there is one of its name, and leave the rest of the pod. */
  lemma AdditionsAdd(pod: Pod, v: Volume, c: Container)
    ensures Mutated(pod, AddVolume(v)) ==
            pod.(volumes := if HasName(pod.volumes, VolumeName, v.name) then pod.volumes else pod.volumes + [v])
    ensures Mutated(pod, AddContainer(c)) ==
            pod.(containers := if HasName(pod.containers, ContainerName, c.name) then pod.containers
                               else pod.containers + [c])
    ensures Mutated(pod, AddInitContainer(c)) ==
            pod.(initContainers := if HasName(pod.initContainers, ContainerName, c.name) then pod.initContainers
                                   else pod.initContainers + [c])
  {
  }

  /** A mount comes to the containers it is meant for, and to no others. */
  lemma MountsMount(pod: Pod, mount: VolumeMount, name: string, k: nat, i: nat)
    requires i < |pod.containers|
    ensures var (all, named, one) := (Mutated(pod, MountOnAll(mount)), Mutated(pod, MountOnNamed(name, mount)),
                                      Mutated(pod, MountOnOne(k, mount)));
            var c := pod.containers[i];
            && all == pod.(containers := all.containers) && named == pod.(containers := named.containers)
            && one == pod.(containers := one.containers)
            && |all.containers| == |named.containers| == |one.containers| == |pod.containers|
            && all.containers[i] == Mounted(c, mount)
            && named.containers[i] == (if c.name == name then Mounted(c, mount) else c)
            && one.containers[i] == (if i == k then Mounted(c, mount) else c)
  {
  }

  function Mounted(c: Container, mount: VolumeMount): Container {
    if HasName(c.mounts, MountName, mount.name) then c else c.(mounts := c.mounts + [mount])
  }

  /** Variables change in the one container that is named by its place, and nothing else does. */
  lemma VariablesChange(pod: Pod, i: nat, position: nat, value: string, merged: EnvVar, incoming: seq<EnvVar>,
        resolve: Option<Resolver>)
    requires i < |pod.containers| && position < |pod.containers[i].env|
    ensures var env := pod.containers[i].env;
            && Mutated(pod, UpdateEnv(i, incoming, resolve)) ==
               pod.(containers := pod.containers[i := pod.containers[i].(env := WithEnvVars(env, incoming, resolve))])
            && Mutated(pod, SetValue(i, position, value)) ==
               pod.(containers := pod.containers[i := pod.containers[i].(env :=
                      env[position := EnvVar(env[position].name, value, env[position].valueFrom)])])
            && Mutated(pod, MoveToEnd(i, position, merged)) ==
               pod.(containers := pod.containers[i := pod.containers[i].(env :=
                      env[..position] + env[position + 1..] + [merged])])
  {
  }

  /** The annotation is set, and the two fields of the specification get these values. */
  lemma FieldsAreSet(pod: Pod, key: string, value: string)
    ensures Mutated(pod, Annotate(key, value)) == pod.(annotations := pod.annotations[key := value])
    ensures Mutated(pod, ResetSpec) == pod.(shareProcessNamespace := Some(true), restartPolicy := "Always")
  {
  }

  lemma AddNamedAppends<T>(items: seq<T>, nameOf: T -> string, item: T)
    ensures Appended(items, AddNamed(items, nameOf, item), nameOf)
  {
  }

  lemma AddedContainersFollow(containers: seq<Container>, c: Container)
    ensures ContainersFollow(containers, AddNamed(containers, ContainerName, c))
  {
    forall i | 0 <= i < |containers| ensures ContainerFollows(containers[i], containers[i]) {
      ContainerFollowsItself(containers[i]);
    }
  }

  lemma MountedFollows(c: Container, mount: VolumeMount)
    ensures ContainerFollows(c, WithMount(c, mount))
  {
    AddNamedAppends(c.mounts, MountName, mount);
  }

  lemma MountedContainersFollow(containers: seq<Container>, name: string, mount: VolumeMount)
    ensures ContainersFollow(containers, WithMountOnAll(containers, mount))
    ensures ContainersFollow(containers, WithMountOnNamed(containers, name, mount))
  {
    forall i | 0 <= i < |containers|
      ensures ContainerFollows(containers[i], WithMount(containers[i], mount))
      ensures ContainerFollows(containers[i], containers[i])
    {
      MountedFollows(containers[i], mount);
      ContainerFollowsItself(containers[i]);
    }
  }

  lemma {:induction false} UpdatedEnvStays(env: seq<EnvVar>, incoming: seq<EnvVar>, resolve: Option<Resolver>)
    ensures |env| <= |WithEnvVars(env, incoming, resolve)|
    decreases |incoming|
  {
    if incoming != [] {
      UpdatedEnvStays(WithEnvVar(env, incoming[0], resolve), incoming[1..], resolve);
    }
  }

  lemma ReplacedContainerFollows(pod: Pod, i: nat, c: Container)
    requires i < |pod.containers| && ContainerFollows(pod.containers[i], c)
    ensures PodFollows(pod, WithContainer(pod, i, c))
  {
    hide ContainerFollows;
    forall k | 0 <= k < |pod.containers| ensures ContainerFollows(pod.containers[k], pod.containers[k]) {
      ContainerFollowsItself(pod.containers[k]);
    }
  }

  lemma ReplacedEnvFollows(pod: Pod, i: nat, env: seq<EnvVar>)
    requires i < |pod.containers| && (env == [] ==> pod.containers[i].env == [])
    ensures PodFollows(pod, WithEnv(pod, i, env))
  {
    ReplacedContainerFollows(pod, i, pod.containers[i].(env := env));
  }

  lemma MutationFollows(pod: Pod, m: Mutation)
    ensures PodFollows(pod, Mutated(pod, m))
  {
    hide Appended, ContainersFollow, WithMountOnAll, WithMountOnNamed, WithMount, AddNamed, WithEnvVars;
    PodFollowsItself(pod);
    match m
    case AddVolume(v) => AddNamedAppends(pod.volumes, VolumeName, v);
    case AddContainer(c) => AddedContainersFollow(pod.containers, c);
    case AddInitContainer(c) => AddNamedAppends(pod.initContainers, ContainerName, c);
    case MountOnAll(mount) => MountedContainersFollow(pod.containers, "", mount);
    case MountOnNamed(name, mount) => MountedContainersFollow(pod.containers, name, mount);
    case MountOnOne(i, mount) =>
      if i < |pod.containers| {
        MountedFollows(pod.containers[i], mount);
        ReplacedContainerFollows(pod, i, WithMount(pod.containers[i], mount));
      }
    case UpdateEnv(i, incoming, resolve) =>
      if i < |pod.containers| {
        UpdatedEnvStays(pod.containers[i].env, incoming, resolve);
        ReplacedEnvFollows(pod, i, WithEnvVars(pod.containers[i].env, incoming, resolve));
      }
    case SetValue(i, position, value) =>
      if i < |pod.containers| && position < |pod.containers[i].env| {
        var env := pod.containers[i].env;
        ReplacedEnvFollows(pod, i, env[position := env[position].(value := value)]);
      }
    case MoveToEnd(i, position, merged) =>
      if i < |pod.containers| && position < |pod.containers[i].env| {
        ReplacedEnvFollows(pod, i, MovedToEnd(pod.containers[i].env, position, merged));
      }
    case Annotate(key, value) =>
    case ResetSpec =>
  }

  lemma {:induction false} HistoryFollows(pod: Pod, mutations: seq<Mutation>)
    ensures PodFollows(pod, MutatedByAll(pod, mutations))
  {
    if mutations == [] {
      PodFollowsItself(pod);
    } else {
      var init := mutations[..|mutations| - 1];
      HistoryFollows(pod, init);
      MutationFollows(MutatedByAll(pod, init), mutations[|mutations| - 1]);
      PodFollowsTwice(pod, MutatedByAll(pod, init), MutatedByAll(pod, mutations));
    }
  }

  /**
   Whatever mutations an admission run makes, in whatever order, the patch applies to every
   document of the pod and the result describes the mutated pod.
   */
  lemma PatchRebuildsEveryHistory(codecs: Codecs, doc: Json, pod: Pod, mutations: seq<Mutation>)
    requires Faithful(codecs) && Describes(codecs, doc, pod)
    requires DistinctNames(pod.containers, ContainerName)
    ensures var r := ApplyPatch(doc, Spell("", PodEdits(codecs, pod, MutatedByAll(pod, mutations))));
            && r.Some?
            && Describes(codecs, r.value, MutatedByAll(pod, mutations))
            && Narrow(doc, r.value, |pod.containers|)
  {
    hide Faithful, Describes, Narrow, PodFollows, PatchedPod, ApplyPatch, Spell, PodEdits, MutatedByAll;
    var now := MutatedByAll(pod, mutations);
    HistoryFollows(pod, mutations);
    PodRebuiltIff(pod, now);
    PatchApplies(codecs, doc, pod, now);
  }

  // ----- a helper outside the patch -----

  /** AddVolumeMountToInitContainer, which no caller uses. */
  function WithInitMount(pod: Pod, name: string, mount: VolumeMount): Pod {
    pod.(initContainers := WithMountOnNamed(pod.initContainers, name, mount))
  }

  predicate HasMount(c: Container, mount: string) {
    HasName(c.mounts, MountName, mount)
  }

  /** The patch never carries a mount added to an init container that was already there. */
  lemma InitMountIsLost(pod: Pod, name: string, mount: VolumeMount)
    requires DistinctNames(pod.containers, ContainerName)
    ensures PatchedPod(pod, WithInitMount(pod, name, mount)) == pod
    ensures PatchedPod(pod, WithInitMount(pod, name, mount)) == WithInitMount(pod, name, mount)
            <==> forall c <- pod.initContainers :: c.name == name ==> HasMount(c, mount.name)
  {
    var now := WithInitMount(pod, name, mount);
    hide PatchedList, PatchedContainers, Fresh;
    PodFollowsItself(pod);
    PodRebuiltIff(pod, pod);
    assert pod.annotations + pod.annotations == pod.annotations;
    FreshSplits(pod.initContainers, now.initContainers, ContainerName, |now.initContainers|);
    assert now.initContainers[|now.initContainers|..] == [];
    NothingFresh(pod.initContainers, ContainerName);
    NothingFreshIsAdded(pod.initContainers, now.initContainers);
    InitMountChanges(pod, name, mount);
  }

  lemma NothingFreshIsAdded(was: seq<Container>, now: seq<Container>)
    requires Fresh(was, now, ContainerName) == []
    ensures PatchedList(was, now, ContainerName) == was
  {
  }

  lemma InitMountChanges(pod: Pod, name: string, mount: VolumeMount)
    ensures WithInitMount(pod, name, mount) == pod
            <==> forall c <- pod.initContainers :: c.name == name ==> HasMount(c, mount.name)
  {
    var now := WithInitMount(pod, name, mount);
    if forall c <- pod.initContainers :: c.name == name ==> HasMount(c, mount.name) {
      assert now.initContainers == pod.initContainers;
    } else {
      var i :| 0 <= i < |pod.initContainers| && pod.initContainers[i].name == name
               && !HasMount(pod.initContainers[i], mount.name);
      assert |now.initContainers[i].mounts| == |pod.initContainers[i].mounts| + 1;
    }
  }

  /** Distinct names are needed: of two containers with one name the patch compares both with the last. */
  lemma EqualNamesMixUp(pod: Pod, c: Container, v: EnvVar)
    requires pod.containers == [c, c] && c.env == []
    ensures var now := Mutated(pod, UpdateEnv(0, [v], None));
            PodFollows(pod, now) && PatchedPod(pod, now) == pod != now
  {
    hide PodFollows, PatchedList, Fresh, LastNamed;
    var now := Mutated(pod, UpdateEnv(0, [v], None));
    MutationFollows(pod, UpdateEnv(0, [v], None));
    OneVariable(v);
    assert now.containers == [c.(env := [v]), c];
    MixedUp(c, v);
    NothingFreshOfSame(pod.volumes, VolumeName);
    NothingFreshOfSame(pod.initContainers, ContainerName);
    assert pod.annotations + pod.annotations == pod.annotations;
  }

  lemma OneVariable(v: EnvVar)
    ensures WithEnvVars([], [v], None) == [v]
  {
    assert WithEnvVars([], [v], None) == WithEnvVars(WithEnvVar([], v, None), [v][1..], None);
  }

  lemma MixedUp(c: Container, v: EnvVar)
    requires c.env == []
    ensures PatchedContainers([c, c], [c.(env := [v]), c]) == [c, c]
  {
    var was, now := [c, c], [c.(env := [v]), c];
    LastNamedIs(now, 1);
    assert ContainerName(was[0]) == c.name;
    NothingFreshOfSame(c.mounts, MountName);
    FreshSplits(was, now, ContainerName, 2);
    assert now[2..] == [];
    assert FirstPatched(was, now, 2) == was;
  }

  lemma NothingFreshOfSame<T>(items: seq<T>, nameOf: T -> string)
    ensures Fresh(items, items, nameOf) == [] && PatchedList(items, items, nameOf) == items
  {
    FreshSplits(items, items, nameOf, |items|);
    assert items[|items|..] == [];
  }
}
