/** `PopulateVolumes` of apiserver/pkg/model/volumes.go, with the dereferences that may fail. */
module Volumes {
  import opened Basics

  datatype Item = Item(key: string, path: string)

  datatype ConfigMapSource = ConfigMapSource(name: string, items: seq<Item>)
  datatype SecretSource = SecretSource(name: string, items: seq<Item>)
  datatype EmptyDirSource = EmptyDirSource(sizeLimit: Option<string>)
  datatype HostPathSource = HostPathSource(path: string, kind: Option<string>)
  datatype ClaimSource = ClaimSource(claim: string, readOnly: bool)
  datatype ClaimTemplate = ClaimTemplate(accessModes: seq<string>, storage: string, storageClass: Option<string>)
  datatype EphemeralSource = EphemeralSource(template: Option<ClaimTemplate>)

  datatype Volume = Volume(
    name: string,
    configMap: Option<ConfigMapSource>,
    secret: Option<SecretSource>,
    emptyDir: Option<EmptyDirSource>,
    hostPath: Option<HostPathSource>,
    claim: Option<ClaimSource>,
    ephemeral: Option<EphemeralSource>)

  datatype Mount = Mount(name: string, path: string, propagation: Option<string>)

  datatype Kind = CONFIGMAP | SECRET | EMPTY_DIR | HOST_PATH | PERSISTENT_VOLUME_CLAIM | EPHEMERAL

  datatype Propagation = NONE | HOSTTOCONTAINER | BIDIRECTIONAL
  datatype PathType = DIRECTORY | FILE
  datatype Access = RWO | ROX | RWX

  datatype ApiVolume = ApiVolume(
    name: string,
    path: string,
    kind: Kind,
    source: string := "",
    items: map<string, string> := map[],
    storage: string := "",
    propagation: Propagation := NONE,
    pathType: PathType := DIRECTORY,
    readOnly: bool := false,
    access: Access := RWO,
    storageClass: string := "")

  datatype Pod = Pod(volumes: seq<Volume>, containers: seq<seq<Mount>>)

  // ----- mounts -----

  function FirstIn(mounts: seq<Mount>, volume: string): Option<Mount> {
    if mounts == [] then None
    else if mounts[0].name == volume then Some(mounts[0])
    else FirstIn(mounts[1..], volume)
  }

  function Concat(containers: seq<seq<Mount>>): seq<Mount> {
    if containers == [] then [] else containers[0] + Concat(containers[1..])
  }

  /** `GetVolumeMount`: the first mount of the volume, container by container. */
  method GetVolumeMount(pod: Pod, volume: string) returns (m: Option<Mount>)
    ensures m == FirstIn(Concat(pod.containers), volume)
  {
    for i := 0 to |pod.containers|
      invariant FirstIn(Concat(pod.containers), volume) == FirstIn(Concat(pod.containers[i..]), volume)
    {
      var mounts := pod.containers[i];
      var rest := Concat(pod.containers[i + 1..]);
      assert Concat(pod.containers[i..]) == mounts + rest by {
        assert pod.containers[i..][1..] == pod.containers[i + 1..];
      }
      for j := 0 to |mounts|
        invariant FirstIn(mounts + rest, volume) == FirstIn(mounts[j..] + rest, volume)
      {
        assert (mounts[j..] + rest)[1..] == mounts[j + 1..] + rest;
        if mounts[j].name == volume {
          return Some(mounts[j]);
        }
      }
      assert mounts[|mounts|..] + rest == rest;
    }
    assert pod.containers[|pod.containers|..] == [];
    return None;
  }

  // ----- one volume -----

  function ItemMap(items: seq<Item>): map<string, string> {
    if items == [] then map[] else ItemMap(items[..|items| - 1])[items[|items| - 1].key := items[|items| - 1].path]
  }

  predicate Recognised(v: Volume) {
    v.configMap.Some? || v.secret.Some? || v.emptyDir.Some? || v.hostPath.Some? || v.claim.Some? || v.ephemeral.Some?
  }

  function PropagationOf(m: Mount): Propagation {
    if m.propagation == Some("HostToContainer") then HOSTTOCONTAINER
    else if m.propagation == Some("Bidirectional") then BIDIRECTIONAL
    else NONE
  }

  function PathTypeOf(h: HostPathSource): PathType {
    if h.kind == Some("File") then FILE else DIRECTORY
  }

  function AccessOf(t: ClaimTemplate): Access {
    if t.accessModes == [] then RWO
    else if t.accessModes[0] == "ReadOnlyMany" then ROX
    else if t.accessModes[0] == "ReadWriteMany" then RWX
    else RWO
  }

  function OrEmpty(s: Option<string>): string {
    if s.Some? then s.value else ""
  }

  /** The conversion of a recognised volume, given its mount. */
  function Converted(v: Volume, m: Mount): ApiVolume
    requires Recognised(v) && Safe(v, true)
  {
    if v.configMap.Some? then
      ApiVolume(v.name, m.path, CONFIGMAP, source := v.configMap.value.name, items := ItemMap(v.configMap.value.items))
    else if v.secret.Some? then
      ApiVolume(v.name, m.path, SECRET, source := v.secret.value.name)
    else if v.emptyDir.Some? then
      ApiVolume(v.name, m.path, EMPTY_DIR, storage := OrEmpty(v.emptyDir.value.sizeLimit))
    else if v.hostPath.Some? then
      ApiVolume(v.name, m.path, HOST_PATH, source := v.hostPath.value.path,
                propagation := PropagationOf(m), pathType := PathTypeOf(v.hostPath.value))
    else if v.claim.Some? then
      ApiVolume(v.name, m.path, PERSISTENT_VOLUME_CLAIM, source := v.claim.value.claim,
                propagation := PropagationOf(m), readOnly := v.claim.value.readOnly)
    else
      var t := v.ephemeral.value.template.value;
      ApiVolume(v.name, m.path, EPHEMERAL, storage := t.storage,
                propagation := PropagationOf(m), access := AccessOf(t), storageClass := OrEmpty(t.storageClass))
  }

  /** A recognised volume needs a mount. A secret must not list items, because the branch for
      secrets reads the items of the config map, which is absent there. An ephemeral volume needs
      its claim template. */
  predicate Safe(v: Volume, mounted: bool) {
    Recognised(v) ==>
      && mounted
      && (v.configMap.None? && v.secret.Some? ==> v.secret.value.items == [])
      && (v.configMap.None? && v.secret.None? && v.emptyDir.None? && v.hostPath.None? && v.claim.None? ==>
          v.ephemeral.value.template.Some?)
  }

  datatype Step = Crash | Skip | Add(volume: ApiVolume)

  method ConvertItems(items: seq<Item>) returns (m: map<string, string>)
    ensures m == ItemMap(items)
  {
    m := map[];
    for i := 0 to |items|
      invariant m == ItemMap(items[..i])
    {
      assert items[..i + 1][..i] == items[..i];
      m := m[items[i].key := items[i].path];
    }
    assert items[..|items|] == items;
  }

  /** The branches in their order; reading through an absent pointer is a crash. */
  method ConvertVolume(vol: Volume, mount: Option<Mount>) returns (step: Step)
    ensures step == if !Safe(vol, mount.Some?) then Crash
                    else if Recognised(vol) then Add(Converted(vol, mount.value)) else Skip
  {
    if vol.configMap.Some? {
      if mount.None? { return Crash; }
      var items := map[];
      if |vol.configMap.value.items| > 0 {
        items := ConvertItems(vol.configMap.value.items);
      }
      return Add(ApiVolume(vol.name, mount.value.path, CONFIGMAP, source := vol.configMap.value.name, items := items));
    }
    if vol.secret.Some? {
      if mount.None? { return Crash; }
      if |vol.secret.value.items| > 0 {
        // The items read here are those of the config map, which is absent.
        return Crash;
      }
      return Add(ApiVolume(vol.name, mount.value.path, SECRET, source := vol.secret.value.name));
    }
    if vol.emptyDir.Some? {
      if mount.None? { return Crash; }
      return Add(ApiVolume(vol.name, mount.value.path, EMPTY_DIR, storage := OrEmpty(vol.emptyDir.value.sizeLimit)));
    }
    if vol.hostPath.Some? {
      if mount.None? { return Crash; }
      return Add(ApiVolume(vol.name, mount.value.path, HOST_PATH, source := vol.hostPath.value.path,
                           propagation := PropagationOf(mount.value), pathType := PathTypeOf(vol.hostPath.value)));
    }
    if vol.claim.Some? {
      if mount.None? { return Crash; }
      return Add(ApiVolume(vol.name, mount.value.path, PERSISTENT_VOLUME_CLAIM, source := vol.claim.value.claim,
                           propagation := PropagationOf(mount.value), readOnly := vol.claim.value.readOnly));
    }
    if vol.ephemeral.Some? {
      if vol.ephemeral.value.template.None? || mount.None? { return Crash; }
      var t := vol.ephemeral.value.template.value;
      return Add(ApiVolume(vol.name, mount.value.path, EPHEMERAL, storage := t.storage,
                           propagation := PropagationOf(mount.value), access := AccessOf(t),
                           storageClass := OrEmpty(t.storageClass)));
    }
    return Skip;
  }

  // ----- all volumes -----

  function MountOf(pod: Pod, v: Volume): Option<Mount> {
    FirstIn(Concat(pod.containers), v.name)
  }

  predicate AllSafe(pod: Pod, volumes: seq<Volume>) {
    forall i :: 0 <= i < |volumes| ==> Safe(volumes[i], MountOf(pod, volumes[i]).Some?)
  }

  /** The recognised volumes, in order, each with its first mount path. */
  function Listing(pod: Pod, volumes: seq<Volume>): seq<ApiVolume>
    requires AllSafe(pod, volumes)
  {
    if volumes == [] then [] else
    var v := volumes[|volumes| - 1];
    Listing(pod, volumes[..|volumes| - 1])
    + if Recognised(v) then assert Safe(v, MountOf(pod, v).Some?); [Converted(v, MountOf(pod, v).value)] else []
  }

  /** Completes exactly when every volume is safe, and then lists the recognised ones. */
  method PopulateVolumes(pod: Pod) returns (volumes: Option<seq<ApiVolume>>)
    ensures volumes.Some? <==> AllSafe(pod, pod.volumes)
    ensures volumes.Some? ==> volumes.value == Listing(pod, pod.volumes)
  {
    hide Safe, Converted, Recognised, FirstIn, Concat;
    var result := [];
    for i := 0 to |pod.volumes|
      invariant AllSafe(pod, pod.volumes[..i]) && result == Listing(pod, pod.volumes[..i])
    {
      var vol := pod.volumes[i];
      assert pod.volumes[..i + 1][..i] == pod.volumes[..i];
      var mount := GetVolumeMount(pod, vol.name);
      var step := ConvertVolume(vol, mount);
      if step.Crash? {
        return None;
      }
      if step.Add? {
        result := result + [step.volume];
      }
    }
    assert pod.volumes[..|pod.volumes|] == pod.volumes;
    return Some(result);
  }

  /** A mount is found exactly when some container has one, and no earlier mount has that name. */
  lemma {:induction false} FirstInIsFirst(mounts: seq<Mount>, volume: string)
    ensures FirstIn(mounts, volume).Some? <==> exists i :: 0 <= i < |mounts| && mounts[i].name == volume
    ensures FirstIn(mounts, volume).Some? ==>
              exists i :: && 0 <= i < |mounts| && mounts[i] == FirstIn(mounts, volume).value && mounts[i].name == volume
                          && forall j :: 0 <= j < i ==> mounts[j].name != volume
  {
    if mounts == [] {
    } else {
      FirstInIsFirst(mounts[1..], volume);
      if mounts[0].name == volume {
        assert mounts[0] == FirstIn(mounts, volume).value;
      } else {
        if FirstIn(mounts[1..], volume).Some? {
          var i :| 0 <= i < |mounts[1..]| && mounts[1..][i] == FirstIn(mounts, volume).value
                   && mounts[1..][i].name == volume
                   && forall j :: 0 <= j < i ==> mounts[1..][j].name != volume;
          assert mounts[i + 1] == mounts[1..][i];
          assert forall j :: 0 < j < i + 1 ==> mounts[j] == mounts[1..][j - 1];
        } else {
          forall i | 0 <= i < |mounts|
            ensures mounts[i].name != volume
          {
            if i > 0 {
              assert mounts[i] == mounts[1..][i - 1];
            }
          }
        }
      }
    }
  }

  /** The mount at place j of container i is the volume's, and no mount before it is, in that container
      or an earlier one. */
  ghost predicate FirstAt(containers: seq<seq<Mount>>, volume: string, i: nat, j: nat) {
    && i < |containers| && j < |containers[i]| && containers[i][j].name == volume
    && (forall l :: 0 <= l < j ==> containers[i][l].name != volume)
    && (forall k, l :: 0 <= k < i && 0 <= l < |containers[k]| ==> containers[k][l].name != volume)
  }

  lemma {:induction false} FirstInConcat(a: seq<Mount>, b: seq<Mount>, volume: string)
    ensures FirstIn(a + b, volume) == if FirstIn(a, volume).Some? then FirstIn(a, volume) else FirstIn(b, volume)
  {
    if a == [] {
      assert a + b == b;
    } else {
      assert (a + b)[1..] == a[1..] + b;
      FirstInConcat(a[1..], b, volume);
    }
  }

  /** The mount of a volume is the first one in the first container that has one, if any has. */
  lemma {:induction false} MountIsFirst(containers: seq<seq<Mount>>, volume: string)
    ensures var m := FirstIn(Concat(containers), volume);
            if m.Some? then exists i: nat, j: nat :: FirstAt(containers, volume, i, j) && containers[i][j] == m.value
            else forall k, l :: 0 <= k < |containers| && 0 <= l < |containers[k]| ==> containers[k][l].name != volume
  {
    if containers == [] {
    } else {
      var a, rest := containers[0], containers[1..];
      FirstInConcat(a, Concat(rest), volume);
      FirstInIsFirst(a, volume);
      var m := FirstIn(Concat(containers), volume);
      if FirstIn(a, volume).Some? {
        var j :| && 0 <= j < |a| && a[j] == m.value && a[j].name == volume
                 && forall l :: 0 <= l < j ==> a[l].name != volume;
        assert FirstAt(containers, volume, 0, j);
      } else {
        MountIsFirst(rest, volume);
        assert forall k :: 0 < k < |containers| ==> containers[k] == rest[k - 1];
        if m.Some? {
          var i: nat, j: nat :| FirstAt(rest, volume, i, j) && rest[i][j] == m.value;
          assert containers[i + 1] == rest[i];
          assert FirstAt(containers, volume, i + 1, j);
        }
      }
    }
  }

  // ----- what the listing shows -----

  /** The last path given for a key wins. */
  lemma {:induction false} LastItemWins(items: seq<Item>, key: string)
    ensures key in ItemMap(items) <==> exists i :: 0 <= i < |items| && items[i].key == key
    ensures key in ItemMap(items) ==>
              exists i :: && 0 <= i < |items| && items[i] == Item(key, ItemMap(items)[key])
                          && forall j :: i < j < |items| ==> items[j].key != key
  {
    if items == [] {
    } else {
      var n := |items| - 1;
      LastItemWins(items[..n], key);
      if items[n].key == key {
        assert items[n] == Item(key, ItemMap(items)[key]);
      } else if key in ItemMap(items) {
        var i :| 0 <= i < n && items[..n][i] == Item(key, ItemMap(items)[key])
                 && forall j :: i < j < n ==> items[..n][j].key != key;
        assert items[i] == Item(key, ItemMap(items)[key]);
      }
    }
  }

  /** The kinds of source a volume has, the one that is looked at first in front. */
  function Kinds(v: Volume): seq<Kind> {
    (if v.configMap.Some? then [CONFIGMAP] else []) + (if v.secret.Some? then [SECRET] else [])
    + (if v.emptyDir.Some? then [EMPTY_DIR] else []) + (if v.hostPath.Some? then [HOST_PATH] else [])
    + (if v.claim.Some? then [PERSISTENT_VOLUME_CLAIM] else []) + (if v.ephemeral.Some? then [EPHEMERAL] else [])
  }

  /** How many volumes have a source at all. */
  function Shown(volumes: seq<Volume>): nat {
    if volumes == [] then 0
    else Shown(volumes[..|volumes| - 1]) + (if Kinds(volumes[|volumes| - 1]) != [] then 1 else 0)
  }

  /** The API volume shows the volume at that mount: name, path and kind, and field by field what the
      source of that kind and the mount say. */
  ghost predicate Shows(v: Volume, m: Mount, a: ApiVolume) {
    && Kinds(v) != []
    && a.name == v.name && a.path == m.path && a.kind == Kinds(v)[0]
    && ShowsSource(v, a)
    && (a.propagation.HOSTTOCONTAINER? <==> Propagates(a.kind) && m.propagation == Some("HostToContainer"))
    && (a.propagation.BIDIRECTIONAL? <==> Propagates(a.kind) && m.propagation == Some("Bidirectional"))
  }

  predicate Propagates(kind: Kind) {
    kind in {HOST_PATH, PERSISTENT_VOLUME_CLAIM, EPHEMERAL}
  }

  ghost predicate ShowsSource(v: Volume, a: ApiVolume) {
    match a.kind
    case CONFIGMAP =>
      && v.configMap.Some? && a.source == v.configMap.value.name && a.items == ItemMap(v.configMap.value.items)
      && a.storage == "" && !a.readOnly && a.pathType.DIRECTORY? && a.access.RWO? && a.storageClass == ""
    case SECRET =>
      && v.secret.Some? && a.source == v.secret.value.name && a.items == map[]
      && a.storage == "" && !a.readOnly && a.pathType.DIRECTORY? && a.access.RWO? && a.storageClass == ""
    case EMPTY_DIR =>
      && v.emptyDir.Some? && a.source == "" && a.items == map[]
      && (if v.emptyDir.value.sizeLimit.Some? then a.storage == v.emptyDir.value.sizeLimit.value else a.storage == "")
      && !a.readOnly && a.pathType.DIRECTORY? && a.access.RWO? && a.storageClass == ""
    case HOST_PATH =>
      && v.hostPath.Some? && a.source == v.hostPath.value.path && a.items == map[] && a.storage == "" && !a.readOnly
      && (a.pathType.FILE? <==> v.hostPath.value.kind == Some("File")) && a.access.RWO? && a.storageClass == ""
    case PERSISTENT_VOLUME_CLAIM =>
      && v.claim.Some? && a.source == v.claim.value.claim && a.items == map[] && a.storage == ""
      && a.readOnly == v.claim.value.readOnly && a.pathType.DIRECTORY? && a.access.RWO? && a.storageClass == ""
    case EPHEMERAL =>
      && v.ephemeral.Some? && v.ephemeral.value.template.Some?
      && var t := v.ephemeral.value.template.value;
      && a.source == "" && a.items == map[] && a.storage == t.storage && !a.readOnly && a.pathType.DIRECTORY?
      && (a.access.ROX? <==> t.accessModes != [] && t.accessModes[0] == "ReadOnlyMany")
      && (a.access.RWX? <==> t.accessModes != [] && t.accessModes[0] == "ReadWriteMany")
      && (if t.storageClass.Some? then a.storageClass == t.storageClass.value else a.storageClass == "")
  }

  lemma ConvertedShows(v: Volume, m: Mount)
    requires Safe(v, true)
    ensures Recognised(v) <==> Kinds(v) != []
    ensures Recognised(v) ==> Shows(v, m, Converted(v, m))
  {
    hide ItemMap;
  }

  /** Volume i, if it has a source, is listed after those before it and shown at its first mount; the
      others are not listed. */
  lemma {:induction false} ListingKeeps(pod: Pod, volumes: seq<Volume>, i: nat)
    requires AllSafe(pod, volumes) && i < |volumes|
    ensures |Listing(pod, volumes)| == Shown(volumes) && Shown(volumes[..i]) <= Shown(volumes)
    ensures Kinds(volumes[i]) != [] ==>
              && Shown(volumes[..i]) < Shown(volumes) && MountOf(pod, volumes[i]).Some?
              && var a := Listing(pod, volumes)[Shown(volumes[..i])];
              Shows(volumes[i], MountOf(pod, volumes[i]).value, a)
  {
    hide Safe, Recognised, Converted, Kinds, MountOf, Shows;
    var n := |volumes| - 1;
    LastListed(pod, volumes);
    if i < n {
      assert volumes[..n][..i] == volumes[..i];
      ListingKeeps(pod, volumes[..n], i);
    } else {
      ListingLength(pod, volumes[..n]);
    }
  }

  lemma {:induction false} ListingLength(pod: Pod, volumes: seq<Volume>)
    requires AllSafe(pod, volumes)
    ensures |Listing(pod, volumes)| == Shown(volumes)
  {
    hide Safe, Recognised, Converted, Kinds, MountOf, Shows;
    if volumes == [] {
    } else {
      ListingLength(pod, volumes[..|volumes| - 1]);
      LastListed(pod, volumes);
    }
  }

  lemma LastListed(pod: Pod, volumes: seq<Volume>)
    requires AllSafe(pod, volumes) && volumes != []
    ensures var n := |volumes| - 1;
            var v := volumes[n];
            if Kinds(v) == [] then Listing(pod, volumes) == Listing(pod, volumes[..n])
            else && MountOf(pod, v).Some? && |Listing(pod, volumes)| == |Listing(pod, volumes[..n])| + 1
                 && Listing(pod, volumes)[..|Listing(pod, volumes)| - 1] == Listing(pod, volumes[..n])
                 && var a := Listing(pod, volumes)[|Listing(pod, volumes)| - 1];
                 Shows(v, MountOf(pod, v).value, a)
  {
    hide Converted, MountOf, Shows;
    var v := volumes[|volumes| - 1];
    assert Safe(v, MountOf(pod, v).Some?);
    ConvertedShows(v, if MountOf(pod, v).Some? then MountOf(pod, v).value else Mount("", "", None));
  }

  const NO_SOURCE := Volume("v", None, None, None, None, None, None)
  const MOUNTED := [[Mount("v", "/v", None)]]

  const UNMOUNTED := Pod([NO_SOURCE.(emptyDir := Some(EmptyDirSource(None)))], [])
  const SECRET_ITEMS := Pod([NO_SOURCE.(secret := Some(SecretSource("s", [Item("k", "p")])))], MOUNTED)
  const NO_CLAIM_TEMPLATE := Pod([NO_SOURCE.(ephemeral := Some(EphemeralSource(None)))], MOUNTED)

  /** The conversion crashes on a volume with a source that nobody mounts, on a secret that lists items
      and on an ephemeral volume without a claim template, but not on a volume without a source. */
  lemma CrashingPods()
    ensures !AllSafe(UNMOUNTED, UNMOUNTED.volumes)
    ensures !AllSafe(SECRET_ITEMS, SECRET_ITEMS.volumes)
    ensures !AllSafe(NO_CLAIM_TEMPLATE, NO_CLAIM_TEMPLATE.volumes)
    ensures AllSafe(Pod([NO_SOURCE], []), [NO_SOURCE])
  {
    assert !Safe(UNMOUNTED.volumes[0], MountOf(UNMOUNTED, UNMOUNTED.volumes[0]).Some?);
    assert !Safe(SECRET_ITEMS.volumes[0], MountOf(SECRET_ITEMS, SECRET_ITEMS.volumes[0]).Some?);
    assert !Safe(NO_CLAIM_TEMPLATE.volumes[0], MountOf(NO_CLAIM_TEMPLATE, NO_CLAIM_TEMPLATE.volumes[0]).Some?);
  }
}
