/**
  Annotations and labels in `PopulateHeadNodeSpec` and `PopulateWorkerNodeSpec`
  (apiserver/pkg/model/converter.go). The conversion deletes keys from the maps of the custom
  resource and hands the same maps on to the API object.
 */
module NodeSpecs {
  import opened Basics

  class StringMap {
    var m: map<string, string>

    constructor (m: map<string, string>)
      ensures this.m == m
    {
      this.m := m;
    }
  }

  const IMAGE_KEY := "ray.io/compute-image"
  const TEMPLATE_KEY := "ray.io/compute-template"

  const DEFAULT_ANNOTATIONS := [
    "ray.io/compute-image", "openshift.io/scc", "cni.projectcalico.org/podIP", "ray.io/health-state",
    "ray.io/ft-enabled", "cni.projectcalico.org/podIPs", "cni.projectcalico.org/containerID",
    "ray.io/compute-template", "k8s.v1.cni.cncf.io/network-status", "k8s.v1.cni.cncf.io/networks-status"]

  const DEFAULT_LABELS := [
    "app.kubernetes.io/created-by", "app.kubernetes.io/name", "ray.io/cluster", "ray.io/cluster-dashboard",
    "ray.io/group", "ray.io/identifier", "ray.io/is-ray-node", "ray.io/node-type"]

  function Without(m: map<string, string>, keys: seq<string>): map<string, string> {
    map k | k in m && k !in keys :: m[k]
  }

  /** The metadata of a pod template; null is a nil map. */
  datatype Template = Template(annotations: StringMap?, labels: StringMap?)

  /** The part of the API object the metadata ends up in. */
  datatype Node = Node(image: string, computeTemplate: string, annotations: StringMap?, labels: StringMap?)

  /** Contents of a map that may be nil. */
  function Contents(s: StringMap?): map<string, string>
    reads s
  {
    if s == null then map[] else s.m
  }

  function MapsOf(t: Template): set<StringMap> {
    (if t.annotations == null then {} else {t.annotations}) + (if t.labels == null then {} else {t.labels})
  }

  ghost function AllMaps(ts: seq<Template>): set<StringMap> {
    set i, s | 0 <= i < |ts| && s in MapsOf(ts[i]) :: s
  }

  /** `delete` for each key of a list. */
  method DeleteAll(s: StringMap?, keys: seq<string>)
    modifies s
    ensures Contents(s) == Without(old(Contents(s)), keys)
  {
    if s == null {
      return;
    }
    assert s.m == Without(s.m, keys[..0]);
    for i := 0 to |keys|
      invariant s.m == Without(old(s.m), keys[..i])
    {
      s.m := s.m - {keys[i]};
      assert forall k :: k in keys[..i + 1] <==> k in keys[..i] || k == keys[i];
    }
    assert keys[..|keys|] == keys;
  }

  /** The user's entries of a template, and what the conversion makes of it. */
  ghost predicate Converts(t: Template, annotations: map<string, string>, labels: map<string, string>, n: Node)
    reads t.annotations, t.labels
  {
    && n.image == Entry(annotations, "ray.io/compute-image")
    && n.computeTemplate == Entry(annotations, "ray.io/compute-template")
    && Contents(t.annotations) == Without(annotations, DEFAULT_ANNOTATIONS)
    && Contents(t.labels) == Without(labels, DEFAULT_LABELS)
    && n.annotations == (if Contents(t.annotations) != map[] then t.annotations else null)
    && n.labels == (if Contents(t.labels) != map[] then t.labels else null)
  }

  /** One template. Image and template name are read before their keys are deleted. */
  method ConvertTemplate(t: Template) returns (n: Node)
    requires t.annotations != t.labels || t.annotations == null
    modifies MapsOf(t)
    ensures Converts(t, old(Contents(t.annotations)), old(Contents(t.labels)), n)
  {
    hide Without;
    var image, name := Entry(Contents(t.annotations), IMAGE_KEY), Entry(Contents(t.annotations), TEMPLATE_KEY);
    DeleteAll(t.annotations, DEFAULT_ANNOTATIONS);
    var annotations := if Contents(t.annotations) != map[] then t.annotations else null;
    DeleteAll(t.labels, DEFAULT_LABELS);
    var labels := if Contents(t.labels) != map[] then t.labels else null;
    n := Node(image, name, annotations, labels);
  }

  ghost predicate Apart(t: Template, u: Template) {
    && (t.annotations == null || (t.annotations != u.annotations && t.annotations != u.labels))
    && (t.labels == null || (t.labels != u.annotations && t.labels != u.labels))
  }

  /** No two maps of the custom resource are the same object. */
  ghost predicate Disjoint(ts: seq<Template>) {
    && (forall i :: 0 <= i < |ts| ==> ts[i].annotations != ts[i].labels || ts[i].annotations == null)
    && (forall i, j :: 0 <= i < |ts| && 0 <= j < |ts| && i != j ==> Apart(ts[i], ts[j]))
  }

  lemma MapsAreIncluded(ts: seq<Template>, n: nat)
    requires n < |ts|
    ensures MapsOf(ts[n]) <= AllMaps(ts)
  {
  }

  /** The worker groups, one after another. */
  method ConvertTemplates(ts: seq<Template>) returns (ns: seq<Node>)
    requires Disjoint(ts)
    modifies AllMaps(ts)
    ensures |ns| == |ts|
    ensures forall i :: 0 <= i < |ts| ==>
              Converts(ts[i], old(Contents(ts[i].annotations)), old(Contents(ts[i].labels)), ns[i])
  {
    hide Without, Entry, AllMaps;
    ns := [];
    for n := 0 to |ts|
      invariant |ns| == n
      invariant forall i :: 0 <= i < n ==>
                  Converts(ts[i], old(Contents(ts[i].annotations)), old(Contents(ts[i].labels)), ns[i])
      invariant forall i :: n <= i < |ts| ==>
                  && Contents(ts[i].annotations) == old(Contents(ts[i].annotations))
                  && Contents(ts[i].labels) == old(Contents(ts[i].labels))
    {
      MapsAreIncluded(ts, n);
      assert forall i :: 0 <= i < |ts| && i != n ==> Apart(ts[i], ts[n]);
      var node := ConvertTemplate(ts[n]);
      ns := ns + [node];
    }
  }

  /** Reserved and user entries partition each map, and a second conversion finds no reserved ones. */
  lemma WithoutPartitions(m: map<string, string>, keys: seq<string>)
    ensures var user := Without(m, keys);
            var reserved := map k | k in m && k in keys :: m[k];
            && user.Keys !! reserved.Keys && user + reserved == m
            && (forall k :: k in user ==> k !in keys)
            && Without(user, keys) == user
            && (forall k :: k in keys ==> Entry(user, k) == "")
  {
    var user := Without(m, keys);
    assert Without(user, keys) == user;
  }

  /** Converting twice keeps the user's entries and loses image and template name. */
  method ConvertTwice(t: Template) returns (first: Node, second: Node)
    requires t.annotations != t.labels || t.annotations == null
    modifies MapsOf(t)
    ensures first.image == Entry(old(Contents(t.annotations)), IMAGE_KEY) && second.image == ""
    ensures first.computeTemplate == Entry(old(Contents(t.annotations)), TEMPLATE_KEY) && second.computeTemplate == ""
    ensures second.annotations == first.annotations && second.labels == first.labels
    ensures Contents(second.annotations) == Without(old(Contents(t.annotations)), DEFAULT_ANNOTATIONS)
    ensures Contents(second.labels) == Without(old(Contents(t.labels)), DEFAULT_LABELS)
  {
    hide Without, Entry;
    first := ConvertTemplate(t);
    WithoutPartitions(old(Contents(t.annotations)), DEFAULT_ANNOTATIONS);
    WithoutPartitions(old(Contents(t.labels)), DEFAULT_LABELS);
    assert DEFAULT_ANNOTATIONS[0] == IMAGE_KEY && DEFAULT_ANNOTATIONS[7] == TEMPLATE_KEY;
    second := ConvertTemplate(t);
  }
}
