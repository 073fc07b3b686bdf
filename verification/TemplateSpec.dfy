/**
  Compute templates applied to requests, as functions on JSON trees
  (apiserversdk/util/template.go). Applying a template to a group is applying a patch,
  and patches compose.
 */
module TemplateSpec {
  import opened Basics
  import opened JsonTree
  import Decimals

  datatype Toleration = Toleration(key: string, operator: string, value: string, effect: string)

  datatype ComputeTemplate = ComputeTemplate(
    name: string,
    namespace: string,
    cpu: nat,
    memory: nat,
    memoryUnit: string,
    gpu: nat,
    gpuAccelerator: string,
    extendedResources: map<string, nat>,
    tolerations: Option<seq<Toleration>>)

  const ANNOTATION_KEY := "ray.io/compute-template"

  // ----- a template as a patch -----

  /** What a template writes: its name, the resources of every container, the resources of the
      Ray container, and the tolerations it adds, if it has a list of them. */
  datatype Patch = Patch(
    name: string,
    plain: map<string, Json>,
    ray: map<string, Json>,
    tolerations: Option<seq<Json>>)

  function Number(n: nat): Json {
    Num(n as real)
  }

  function BaseResources(ct: ComputeTemplate): map<string, Json> {
    map["cpu" := Str(Decimals.Format(ct.cpu)), "memory" := Str(Decimals.Format(ct.memory) + ct.memoryUnit)]
  }

  function Accelerator(ct: ComputeTemplate): string {
    if ct.gpuAccelerator != "" then ct.gpuAccelerator else "nvidia.com/gpu"
  }

  function GpuResources(ct: ComputeTemplate): map<string, Json> {
    if ct.gpu != 0 then map[Accelerator(ct) := Number(ct.gpu)] else map[]
  }

  function ExtendedResources(ct: ComputeTemplate): map<string, Json> {
    map k | k in ct.extendedResources :: Number(ct.extendedResources[k])
  }

  function TolerationTree(t: Toleration): Json {
    Obj(map["key" := Str(t.key), "operator" := Str(t.operator), "value" := Str(t.value), "effect" := Str(t.effect)])
  }

  function TolerationTrees(ts: seq<Toleration>): seq<Json> {
    seq(|ts|, i requires 0 <= i < |ts| => TolerationTree(ts[i]))
  }

  function PatchOf(ct: ComputeTemplate): Patch {
    Patch(ct.name,
          BaseResources(ct),
          BaseResources(ct) + GpuResources(ct) + ExtendedResources(ct),
          if ct.tolerations.Some? then Some(TolerationTrees(ct.tolerations.value)) else None)
  }

  // ----- applying a patch -----

  function WithLimitsAndRequests(r: map<string, Json>, w: map<string, Json>): map<string, Json> {
    r["limits" := Obj(SubMap(r, "limits") + w)]["requests" := Obj(SubMap(r, "requests") + w)]
  }

  function WithResources(c: map<string, Json>, w: map<string, Json>): map<string, Json> {
    c["resources" := Obj(WithLimitsAndRequests(SubMap(c, "resources"), w))]
  }

  predicate IsRayContainer(c: map<string, Json>, role: string) {
    "name" in c && c["name"] == Str("ray-" + role)
  }

  function PatchContainer(p: Patch, c: Json, role: string): Json {
    if c.Obj? then Obj(WithResources(c.fields, if IsRayContainer(c.fields, role) then p.ray else p.plain)) else c
  }

  function PatchContainers(p: Patch, cs: seq<Json>, role: string): seq<Json> {
    seq(|cs|, i requires 0 <= i < |cs| => PatchContainer(p, cs[i], role))
  }

  /** A list that is neither there nor gets an element stays a nil slice, which is encoded as null. */
  function AddTolerations(f: map<string, Json>, ts: seq<Json>): Json {
    if "tolerations" in f && f["tolerations"].Arr? then Arr(f["tolerations"].elems + ts)
    else if ts != [] then Arr(ts)
    else Null
  }

  function PatchContainersOf(p: Patch, f: map<string, Json>, role: string): map<string, Json> {
    if "containers" in f && f["containers"].Arr?
    then f["containers" := Arr(PatchContainers(p, f["containers"].elems, role))] else f
  }

  function PatchPodSpec(p: Patch, f: map<string, Json>, role: string): map<string, Json> {
    var g := PatchContainersOf(p, f, role);
    if p.tolerations.Some? then g["tolerations" := AddTolerations(f, p.tolerations.value)] else g
  }

  function Annotate(t: map<string, Json>, name: string): map<string, Json> {
    var m := SubMap(t, "metadata");
    t["metadata" := Obj(m["annotations" := Obj(SubMap(m, "annotations")[ANNOTATION_KEY := Str(name)])])]
  }

  function PatchPodTemplate(p: Patch, t: map<string, Json>, role: string): map<string, Json> {
    var a := Annotate(t, p.name);
    if "spec" in t && t["spec"].Obj? then a["spec" := Obj(PatchPodSpec(p, t["spec"].fields, role))] else a
  }

  function PatchGroup(p: Patch, g: map<string, Json>, role: string): map<string, Json> {
    if "template" in g && g["template"].Obj?
    then g["template" := Obj(PatchPodTemplate(p, g["template"].fields, role))] else g
  }

  // ----- composition -----

  function Then(p: Patch, q: Patch): Patch {
    Patch(q.name,
          p.plain + q.plain,
          p.ray + q.ray,
          match (p.tolerations, q.tolerations)
          case (_, None) => p.tolerations
          case (None, _) => q.tolerations
          case (Some(ts), Some(us)) => Some(ts + us))
  }

  lemma LastPairWins(r: map<string, Json>, l: Json, q: Json, l': Json, q': Json)
    ensures r["limits" := l]["requests" := q]["limits" := l']["requests" := q'] == r["limits" := l']["requests" := q']
  {
  }

  lemma LimitsAndRequestsCompose(r: map<string, Json>, w: map<string, Json>, u: map<string, Json>)
    ensures WithLimitsAndRequests(WithLimitsAndRequests(r, w), u) == WithLimitsAndRequests(r, w + u)
  {
    var limits, requests := SubMap(r, "limits"), SubMap(r, "requests");
    var once := WithLimitsAndRequests(r, w);
    assert SubMap(once, "limits") == limits + w && SubMap(once, "requests") == requests + w;
    assert limits + w + u == limits + (w + u);
    assert requests + w + u == requests + (w + u);
    LastPairWins(r, Obj(limits + w), Obj(requests + w), Obj(limits + w + u), Obj(requests + w + u));
  }

  lemma WritesCompose(c: map<string, Json>, w: map<string, Json>, u: map<string, Json>)
    ensures WithResources(WithResources(c, w), u) == WithResources(c, w + u)
  {
    LimitsAndRequestsCompose(SubMap(c, "resources"), w, u);
  }

  lemma ContainerCompose(p: Patch, q: Patch, c: Json, role: string)
    ensures PatchContainer(q, PatchContainer(p, c, role), role) == PatchContainer(Then(p, q), c, role)
  {
    if c.Obj? {
      var ray := IsRayContainer(c.fields, role);
      var w, u := if ray then p.ray else p.plain, if ray then q.ray else q.plain;
      assert IsRayContainer(WithResources(c.fields, w), role) == ray;
      WritesCompose(c.fields, w, u);
    }
  }

  lemma ContainersCompose(p: Patch, q: Patch, cs: seq<Json>, role: string)
    ensures PatchContainers(q, PatchContainers(p, cs, role), role) == PatchContainers(Then(p, q), cs, role)
  {
    forall i | 0 <= i < |cs|
      ensures PatchContainer(q, PatchContainer(p, cs[i], role), role) == PatchContainer(Then(p, q), cs[i], role)
    {
      ContainerCompose(p, q, cs[i], role);
    }
  }

  lemma PodSpecCompose(p: Patch, q: Patch, f: map<string, Json>, role: string)
    ensures PatchPodSpec(q, PatchPodSpec(p, f, role), role) == PatchPodSpec(Then(p, q), f, role)
  {
    var once := PatchPodSpec(p, f, role);
    var twice, direct := PatchPodSpec(q, once, role), PatchPodSpec(Then(p, q), f, role);
    assert "containers" in once <==> "containers" in f;
    if "containers" in f && f["containers"].Arr? {
      ContainersCompose(p, q, f["containers"].elems, role);
      assert twice["containers"] == direct["containers"];
    }
    if p.tolerations.Some? && q.tolerations.Some? {
      var ts, us := p.tolerations.value, q.tolerations.value;
      assert AddTolerations(once, us) == AddTolerations(f, ts + us) by {
        if "tolerations" in f && f["tolerations"].Arr? {
          assert f["tolerations"].elems + ts + us == f["tolerations"].elems + (ts + us);
        } else if ts == [] {
          assert ts + us == us;
        }
      }
    }
    assert twice == direct;
  }

  lemma AnnotateOverwrites(t: map<string, Json>, a: string, b: string)
    ensures Annotate(Annotate(t, a), b) == Annotate(t, b)
  {
    var m := SubMap(t, "metadata");
    var once := Annotate(t, a);
    var ann := SubMap(m, "annotations");
    assert SubMap(SubMap(once, "metadata"), "annotations") == ann[ANNOTATION_KEY := Str(a)];
    assert ann[ANNOTATION_KEY := Str(a)][ANNOTATION_KEY := Str(b)] == ann[ANNOTATION_KEY := Str(b)];
    assert SubMap(once, "metadata")["annotations" := Obj(ann[ANNOTATION_KEY := Str(b)])]
        == m["annotations" := Obj(ann[ANNOTATION_KEY := Str(b)])];
  }

  lemma PodTemplateCompose(p: Patch, q: Patch, t: map<string, Json>, role: string)
    ensures PatchPodTemplate(q, PatchPodTemplate(p, t, role), role) == PatchPodTemplate(Then(p, q), t, role)
  {
    var once := PatchPodTemplate(p, t, role);
    AnnotateOverwrites(t, p.name, q.name);
    if "spec" in t && t["spec"].Obj? {
      var f := t["spec"].fields;
      PodSpecCompose(p, q, f, role);
      hide PatchPodSpec;
      assert once["spec"] == Obj(PatchPodSpec(p, f, role));
      assert Annotate(once, q.name) == Annotate(t, q.name)["spec" := once["spec"]];
    }
  }

  /** Applying one patch and then another is applying their composition. */
  lemma PatchesCompose(p: Patch, q: Patch, g: map<string, Json>, role: string)
    ensures PatchGroup(q, PatchGroup(p, g, role), role) == PatchGroup(Then(p, q), g, role)
  {
    hide PatchPodTemplate;
    if "template" in g && g["template"].Obj? {
      PodTemplateCompose(p, q, g["template"].fields, role);
    }
  }

  function Iterate(p: Patch, g: map<string, Json>, role: string, n: nat): map<string, Json> {
    if n == 0 then g else PatchGroup(p, Iterate(p, g, role, n - 1), role)
  }

  function Repeat<T>(ts: seq<T>, n: nat): seq<T> {
    if n == 0 then [] else Repeat(ts, n - 1) + ts
  }

  /** Applying a template n times is applying it once with its list of tolerations repeated n
      times: annotation and resources are those of a single application. */
  lemma {:induction false} IterationRepeatsTolerationsOnly(p: Patch, g: map<string, Json>, role: string, n: nat)
    requires n > 0
    ensures Iterate(p, g, role, n)
         == var repeated := if p.tolerations.Some? then Some(Repeat(p.tolerations.value, n)) else None;
            PatchGroup(p.(tolerations := repeated), g, role)
  {
    if n == 1 {
      assert Iterate(p, g, role, 0) == g;
      if p.tolerations.Some? {
        var ts := p.tolerations.value;
        assert Repeat(ts, 1) == Repeat(ts, 0) + ts == ts;
      }
    } else {
      IterationRepeatsTolerationsOnly(p, g, role, n - 1);
      var before := p.(tolerations := if p.tolerations.Some? then Some(Repeat(p.tolerations.value, n - 1)) else None);
      PatchesCompose(before, p, g, role);
      assert p.plain + p.plain == p.plain && p.ray + p.ray == p.ray;
    }
  }

  // ----- what a patch leaves alone -----

  /** `f` and `g` agree but for the keys in `ks`. */
  ghost predicate AgreeOutside(f: map<string, Json>, g: map<string, Json>, ks: set<string>) {
    f.Keys - ks == g.Keys - ks && forall k :: k in f && k !in ks ==> k in g && f[k] == g[k]
  }

  /** In a container the patch touches limits and requests only, and there only the keys it
      writes, with the same value on both sides. */
  lemma ContainerFrame(p: Patch, c: map<string, Json>, role: string)
    ensures var w := if IsRayContainer(c, role) then p.ray else p.plain;
            var c' := PatchContainer(p, Obj(c), role).fields;
            var r, r' := SubMap(c, "resources"), SubMap(c', "resources");
            && AgreeOutside(c', c, {"resources"})
            && AgreeOutside(r', r, {"limits", "requests"})
            && AgreeOutside(SubMap(r', "limits"), SubMap(r, "limits"), w.Keys)
            && AgreeOutside(SubMap(r', "requests"), SubMap(r, "requests"), w.Keys)
            && forall k :: k in w ==> && k in SubMap(r', "limits") && SubMap(r', "limits")[k] == w[k]
                                      && k in SubMap(r', "requests") && SubMap(r', "requests")[k] == w[k]
  {
  }

  /** Elsewhere in the group it touches the annotation, the containers and the tolerations. */
  lemma GroupFrame(p: Patch, g: map<string, Json>, role: string)
    requires "template" in g && g["template"].Obj?
    ensures var t, t' := g["template"].fields, SubMap(PatchGroup(p, g, role), "template");
            var m, m' := SubMap(t, "metadata"), SubMap(t', "metadata");
            var s, s' := SubMap(t, "spec"), SubMap(t', "spec");
            && AgreeOutside(PatchGroup(p, g, role), g, {"template"})
            && AgreeOutside(t', t, {"metadata", "spec"})
            && AgreeOutside(m', m, {"annotations"})
            && AgreeOutside(SubMap(m', "annotations"), SubMap(m, "annotations"), {ANNOTATION_KEY})
            && SubMap(m', "annotations")[ANNOTATION_KEY] == Str(p.name)
            && ("spec" in t <==> "spec" in t') && ("spec" in t && !t["spec"].Obj? ==> t'["spec"] == t["spec"])
            && AgreeOutside(s', s, {"containers", "tolerations"})
            && (p.tolerations.None? ==> AgreeOutside(s', s, {"containers"}))
            && ("containers" in s && !s["containers"].Arr? ==> s'["containers"] == s["containers"])
  {
  }

  /** The containers stay in place, each patched for itself; the tolerations that were there stay
      first, in order. */
  lemma PodSpecLists(p: Patch, f: map<string, Json>, role: string)
    ensures var f' := PatchPodSpec(p, f, role);
            && ("containers" in f && f["containers"].Arr? ==>
                  && "containers" in f' && f'["containers"].Arr? && |f'["containers"].elems| == |f["containers"].elems|
                  && forall i :: 0 <= i < |f["containers"].elems| ==>
                       f'["containers"].elems[i] == PatchContainer(p, f["containers"].elems[i], role))
            && (p.tolerations.Some? && "tolerations" in f && f["tolerations"].Arr? ==>
                  && "tolerations" in f' && f'["tolerations"].Arr?
                  && f["tolerations"].elems <= f'["tolerations"].elems
                  && f'["tolerations"].elems[|f["tolerations"].elems|..] == p.tolerations.value)
  {
  }

  /** The resources of the Ray container: extended resources override the accelerator, which
      overrides cpu and memory; other containers get cpu and memory only. */
  lemma ResourcePrecedence(ct: ComputeTemplate)
    ensures var p := PatchOf(ct);
            && p.plain.Keys == {"cpu", "memory"}
            && p.ray.Keys == {"cpu", "memory"} + (if ct.gpu != 0 then {Accelerator(ct)} else {})
                + ct.extendedResources.Keys
            && (forall k :: k in p.ray ==>
                  p.ray[k] == (if k in ct.extendedResources then Number(ct.extendedResources[k])
                               else if ct.gpu != 0 && k == Accelerator(ct) then Number(ct.gpu)
                               else p.plain[k]))
  {
    assert BaseResources(ct).Keys == {"cpu", "memory"};
    assert ExtendedResources(ct).Keys == ct.extendedResources.Keys;
  }

  /** When one template is applied after another, the later one decides every key it writes and
      the earlier one keeps the rest, in limits and requests alike. */
  lemma LaterTemplateWins(p: Patch, q: Patch, c: map<string, Json>, role: string, k: string)
    ensures var r := SubMap(PatchContainer(q, PatchContainer(p, Obj(c), role), role).fields, "resources");
            var wp := if IsRayContainer(c, role) then p.ray else p.plain;
            var wq := if IsRayContainer(c, role) then q.ray else q.plain;
            forall side | side in ["limits", "requests"] ::
              && (k in wq ==> k in SubMap(r, side) && SubMap(r, side)[k] == wq[k])
              && (k in wp && k !in wq ==> k in SubMap(r, side) && SubMap(r, side)[k] == wp[k])
              && (k !in wp && k !in wq ==>
                    var before := SubMap(SubMap(c, "resources"), side);
                    (k in SubMap(r, side) <==> k in before) && (k in before ==> SubMap(r, side)[k] == before[k]))
  {
    ContainerCompose(p, q, Obj(c), role);
    ContainerFrame(Then(p, q), c, role);
  }
}
