/** The helpers of pkg/manager as they work on one pod in place. */
module PodManagers {
  import opened Options
  import opened Pods

  /** The volume, container and mount managers share one pod. */
  class PodManager {
    var pod: Pod

    constructor (pod: Pod)
      ensures this.pod == pod
    {
      this.pod := pod;
    }

    method AddVolume(newVolume: Volume)
      modifies this
      ensures pod == old(pod).(volumes := AddNamed(old(pod).volumes, VolumeName, newVolume))
    {
      for i := 0 to |pod.volumes|
        invariant forall k | 0 <= k < i :: pod.volumes[k].name != newVolume.name
        invariant pod == old(pod)
      {
        if pod.volumes[i].name == newVolume.name {
          return;
        }
      }
      pod := pod.(volumes := pod.volumes + [newVolume]);
    }

    /** The first volume of the name decides. */
    method IsEmptyDirVolume(name: string) returns (r: bool)
      ensures r == IsEmptyDir(pod, name)
    {
      for i := 0 to |pod.volumes|
        invariant forall k | 0 <= k < i :: pod.volumes[k].name != name
      {
        if pod.volumes[i].name == name {
          return pod.volumes[i].emptyDir;
        }
      }
      return false;
    }

    method AddContainer(newContainer: Container)
      modifies this
      ensures pod == old(pod).(containers := AddNamed(old(pod).containers, ContainerName, newContainer))
    {
      for i := 0 to |pod.containers|
        invariant forall k | 0 <= k < i :: pod.containers[k].name != newContainer.name
        invariant pod == old(pod)
      {
        if pod.containers[i].name == newContainer.name {
          return;
        }
      }
      pod := pod.(containers := pod.containers + [newContainer]);
    }

    method AddInitContainer(newContainer: Container)
      modifies this
      ensures pod == old(pod).(initContainers := AddNamed(old(pod).initContainers, ContainerName, newContainer))
    {
      for i := 0 to |pod.initContainers|
        invariant forall k | 0 <= k < i :: pod.initContainers[k].name != newContainer.name
        invariant pod == old(pod)
      {
        if pod.initContainers[i].name == newContainer.name {
          return;
        }
      }
      pod := pod.(initContainers := pod.initContainers + [newContainer]);
    }

    method ContainsContainer(name: string) returns (r: bool)
      ensures r == HasName(pod.containers, ContainerName, name)
    {
      r := ContainsNamed(pod.containers, ContainerName, name);
    }

    method ContainsInitContainer(name: string) returns (r: bool)
      ensures r == HasName(pod.initContainers, ContainerName, name)
    {
      r := ContainsNamed(pod.initContainers, ContainerName, name);
    }

    method AddVolumeMount(mount: VolumeMount)
      modifies this
      ensures pod == old(pod).(containers := WithMountOnAll(old(pod).containers, mount))
    {
      for i := 0 to |pod.containers|
        invariant |pod.containers| == |old(pod).containers|
        invariant forall k | 0 <= k < i :: pod.containers[k] == WithMount(old(pod).containers[k], mount)
        invariant forall k | i <= k < |pod.containers| :: pod.containers[k] == old(pod).containers[k]
        invariant pod == old(pod).(containers := pod.containers)
      {
        var mounts := AddVolumeMountToContainer(pod.containers[i], mount);
        pod := pod.(containers := pod.containers[i := pod.containers[i].(mounts := mounts)]);
      }
      assert pod.containers == WithMountOnAll(old(pod).containers, mount);
    }

    method AddVolumeMountToNamed(name: string, mount: VolumeMount)
      modifies this
      ensures pod == old(pod).(containers := WithMountOnNamed(old(pod).containers, name, mount))
    {
      for i := 0 to |pod.containers|
        invariant |pod.containers| == |old(pod).containers|
        invariant forall k | 0 <= k < i ::
                    pod.containers[k] == WithMountOnNamed(old(pod).containers, name, mount)[k]
        invariant forall k | i <= k < |pod.containers| :: pod.containers[k] == old(pod).containers[k]
        invariant pod == old(pod).(containers := pod.containers)
      {
        if pod.containers[i].name == name {
          var mounts := AddVolumeMountToContainer(pod.containers[i], mount);
          pod := pod.(containers := pod.containers[i := pod.containers[i].(mounts := mounts)]);
        }
      }
      assert pod.containers == WithMountOnNamed(old(pod).containers, name, mount);
    }
  }

  predicate IsEmptyDir(pod: Pod, name: string) {
    var i := FirstNamed(pod.volumes, VolumeName, name, 0);
    i < |pod.volumes| && pod.volumes[i].emptyDir
  }

  method ContainsNamed<T>(items: seq<T>, nameOf: T -> string, name: string) returns (r: bool)
    ensures r == HasName(items, nameOf, name)
  {
    for i := 0 to |items|
      invariant forall k | 0 <= k < i :: nameOf(items[k]) != name
    {
      if nameOf(items[i]) == name {
        return true;
      }
    }
    return false;
  }

  /** Appends the mount unless the container already mounts a volume of that name. */
  method AddVolumeMountToContainer(container: Container, mount: VolumeMount) returns (mounts: seq<VolumeMount>)
    ensures mounts == WithMount(container, mount).mounts
  {
    var found := false;
    for i := 0 to |container.mounts|
      invariant found <==> exists k | 0 <= k < i :: container.mounts[k].name == mount.name
    {
      if container.mounts[i].name == mount.name {
        found := true;
      }
    }
    mounts := container.mounts;
    if !found {
      mounts := mounts + [mount];
    }
  }

  method AddOrUpdateEnvVar(envs: seq<EnvVar>, incoming: EnvVar, resolve: Option<Resolver>) returns (r: seq<EnvVar>)
    ensures r == WithEnvVar(envs, incoming, resolve)
  {
    for i := 0 to |envs|
      invariant forall k | 0 <= k < i :: envs[k].name != incoming.name
    {
      if envs[i].name == incoming.name {
        assert FirstNamed(envs, EnvName, incoming.name, 0) == i;
        if resolve.None? {
          return envs;
        }
        return envs[i := resolve.value(envs[i], incoming)];
      }
    }
    return envs + [incoming];
  }

  method AddOrUpdateEnvVars(envs: seq<EnvVar>, incoming: seq<EnvVar>, resolve: Option<Resolver>)
    returns (r: seq<EnvVar>)
    ensures r == WithEnvVars(envs, incoming, resolve)
  {
    r := envs;
    for i := 0 to |incoming|
      invariant WithEnvVars(r, incoming[i..], resolve) == WithEnvVars(envs, incoming, resolve)
    {
      assert incoming[i..][1..] == incoming[i + 1..];
      r := AddOrUpdateEnvVar(r, incoming[i], resolve);
    }
  }

  // ----- what the environment helpers mean for a container -----

  /** The first variable of a name, which is the one every reader here looks at. */
  function Lookup(envs: seq<EnvVar>, name: string): Option<EnvVar> {
    var i := FirstNamed(envs, EnvName, name, 0);
    if i < |envs| then Some(envs[i]) else None
  }

  /** Keeping existing variables only ever appends, in the order given, the names that were missing. */
  lemma {:induction false} KeepExistingOnlyAppends(envs: seq<EnvVar>, incoming: seq<EnvVar>)
    ensures var r := WithEnvVars(envs, incoming, Some(KeepExisting));
            && envs <= r
            && (forall v <- incoming :: HasName(r, EnvName, v.name))
            && ((forall v <- incoming :: HasName(envs, EnvName, v.name)) ==> r == envs)
    decreases |incoming|
  {
    if incoming != [] {
      var next := WithEnvVar(envs, incoming[0], Some(KeepExisting));
      KeepExistingOnlyAppends(next, incoming[1..]);
      var r := WithEnvVars(envs, incoming, Some(KeepExisting));
      var i := FirstNamed(envs, EnvName, incoming[0].name, 0);
      if i < |envs| {
        assert envs[i := envs[i]] == envs;
        assert EnvName(r[i]) == incoming[0].name;
      } else {
        assert EnvName(next[|envs|]) == EnvName(r[|envs|]) == incoming[0].name;
      }
      forall v | v in incoming ensures HasName(r, EnvName, v.name) {
        assert v == incoming[0] || v in incoming[1..];
      }
      if forall v <- incoming :: HasName(envs, EnvName, v.name) {
        assert incoming[0] in incoming;
        assert i < |envs|;
      }
    }
  }

  /** Updating one name leaves the other names, and every position, as they were. */
  lemma UpdateTouchesOneName(envs: seq<EnvVar>, incoming: EnvVar, resolve: Resolver)
    requires forall e :: resolve(e, incoming).name == e.name
    ensures var r := WithEnvVar(envs, incoming, Some(resolve));
            && |envs| <= |r| <= |envs| + 1
            && (forall k | 0 <= k < |envs| :: r[k].name == envs[k].name)
            && (forall k | 0 <= k < |envs| && envs[k].name != incoming.name :: r[k] == envs[k])
            && Lookup(r, incoming.name) ==
               match Lookup(envs, incoming.name)
               { case None => Some(incoming) case Some(e) => Some(resolve(e, incoming)) }
  {
    var i := FirstNamed(envs, EnvName, incoming.name, 0);
    var r := WithEnvVar(envs, incoming, Some(resolve));
    assert forall k | 0 <= k < i :: r[k].name != incoming.name;
    assert r[i].name == incoming.name;
    assert FirstNamed(r, EnvName, incoming.name, 0) == i;
  }
}
