/**
  What applying a compute template to a group means, key by key and without patches: the group
  before, the group after, and the template (apiserversdk/util/template.go).
 */
module TemplateEffect {
  import opened Basics
  import opened JsonTree
  import opened TemplateSpec
  import Decimals

  // ----- the meaning -----

  /** A string that is the number in decimal, followed by the unit. */
  ghost predicate IsQuantity(j: Json, n: nat, unit: string) {
    && j.Str? && |unit| < |j.s|
    && var k := |j.s| - |unit|;
    && j.s[k..] == unit
    && (forall c :: c in j.s[..k] ==> '0' <= c <= '9')
    && Decimals.Value(j.s[..k], 0) == n
  }

  /** Limits or requests of one container. */
  ghost predicate SideHolds(ct: ComputeTemplate, ray: bool, m: map<string, Json>, m': map<string, Json>) {
    var accelerator := if ct.gpuAccelerator == "" then "nvidia.com/gpu" else ct.gpuAccelerator;
    forall k: string ::
      if ray && k in ct.extendedResources then k in m' && m'[k] == Num(ct.extendedResources[k] as real)
      else if ray && ct.gpu != 0 && k == accelerator then k in m' && m'[k] == Num(ct.gpu as real)
      else if k == "cpu" then k in m' && IsQuantity(m'[k], ct.cpu, "")
      else if k == "memory" then k in m' && IsQuantity(m'[k], ct.memory, ct.memoryUnit)
      else (k in m' <==> k in m) && (k in m ==> m'[k] == m[k])
  }

  ghost predicate HasMapping(f: map<string, Json>, k: string) {
    k in f && f[k].Obj?
  }

  ghost predicate ContainerHolds(ct: ComputeTemplate, role: string, c: map<string, Json>, c': map<string, Json>) {
    var ray := "name" in c && c["name"] == Str("ray-" + role);
    var r, r' := SubMap(c, "resources"), SubMap(c', "resources");
    && AgreeOutside(c', c, {"resources"}) && HasMapping(c', "resources")
    && AgreeOutside(r', r, {"limits", "requests"}) && HasMapping(r', "limits") && HasMapping(r', "requests")
    && SideHolds(ct, ray, SubMap(r, "limits"), SubMap(r', "limits"))
    && SideHolds(ct, ray, SubMap(r, "requests"), SubMap(r', "requests"))
  }

  ghost predicate ContainersHold(ct: ComputeTemplate, role: string, cs: seq<Json>, cs': seq<Json>) {
    && |cs'| == |cs|
    && forall i :: 0 <= i < |cs| ==>
         if cs[i].Obj? then cs'[i].Obj? && ContainerHolds(ct, role, cs[i].fields, cs'[i].fields) else cs'[i] == cs[i]
  }

  ghost predicate IsToleration(j: Json, t: Toleration) {
    && j.Obj? && j.fields.Keys == {"key", "operator", "value", "effect"}
    && j.fields["key"] == Str(t.key) && j.fields["operator"] == Str(t.operator)
    && j.fields["value"] == Str(t.value) && j.fields["effect"] == Str(t.effect)
  }

  /** The list that was there, if any, with the template's tolerations behind it. */
  ghost predicate TolerationsHold(ts: seq<Toleration>, s: map<string, Json>, s': map<string, Json>) {
    var present := "tolerations" in s && s["tolerations"].Arr?;
    var had := if present then s["tolerations"].elems else [];
    && "tolerations" in s'
    && if !present && ts == [] then s'["tolerations"] == Null else
       && s'["tolerations"].Arr? && |s'["tolerations"].elems| == |had| + |ts|
       && s'["tolerations"].elems[..|had|] == had
       && forall i :: 0 <= i < |ts| ==> IsToleration(s'["tolerations"].elems[|had| + i], ts[i])
  }

  ghost predicate PodHolds(ct: ComputeTemplate, role: string, s: map<string, Json>, s': map<string, Json>) {
    && AgreeOutside(s', s, {"containers", "tolerations"})
    && ("containers" in s' <==> "containers" in s)
    && ("containers" in s ==>
          if s["containers"].Arr?
          then s'["containers"].Arr? && ContainersHold(ct, role, s["containers"].elems, s'["containers"].elems)
          else s'["containers"] == s["containers"])
    && if ct.tolerations.Some? then TolerationsHold(ct.tolerations.value, s, s')
       else AgreeOutside(s', s, {"containers"})
  }

  ghost predicate PodTemplateHolds(ct: ComputeTemplate, role: string, t: map<string, Json>, t': map<string, Json>) {
    var m, m' := SubMap(t, "metadata"), SubMap(t', "metadata");
    var a, a' := SubMap(m, "annotations"), SubMap(m', "annotations");
    && AgreeOutside(t', t, {"metadata", "spec"})
    && HasMapping(t', "metadata") && AgreeOutside(m', m, {"annotations"})
    && HasMapping(m', "annotations") && AgreeOutside(a', a, {"ray.io/compute-template"})
    && "ray.io/compute-template" in a' && a'["ray.io/compute-template"] == Str(ct.name)
    && ("spec" in t' <==> "spec" in t)
    && ("spec" in t ==>
          if t["spec"].Obj? then t'["spec"].Obj? && PodHolds(ct, role, t["spec"].fields, t'["spec"].fields)
          else t'["spec"] == t["spec"])
  }

  /** The group `g'` is the group `g` with the template applied to it. */
  ghost predicate GroupHolds(ct: ComputeTemplate, role: string, g: map<string, Json>, g': map<string, Json>) {
    if HasMapping(g, "template") then
      && AgreeOutside(g', g, {"template"}) && HasMapping(g', "template")
      && PodTemplateHolds(ct, role, g["template"].fields, g'["template"].fields)
    else
      g' == g
  }

  // ----- patches mean that -----

  lemma FormatIsQuantity(n: nat, unit: string)
    ensures IsQuantity(Str(Decimals.Format(n) + unit), n, unit)
  {
    var s := Decimals.Format(n);
    assert (s + unit)[..|s|] == s && (s + unit)[|s|..] == unit;
    Decimals.ValueOfFormat(n);
  }

  lemma BaseValues(ct: ComputeTemplate)
    ensures var base := PatchOf(ct).plain;
            && base.Keys == {"cpu", "memory"}
            && IsQuantity(base["cpu"], ct.cpu, "") && IsQuantity(base["memory"], ct.memory, ct.memoryUnit)
  {
    hide IsQuantity;
    FormatIsQuantity(ct.cpu, "");
    FormatIsQuantity(ct.memory, ct.memoryUnit);
    assert Decimals.Format(ct.cpu) + "" == Decimals.Format(ct.cpu);
  }

  lemma WrittenSide(ct: ComputeTemplate, ray: bool, m: map<string, Json>)
    ensures SideHolds(ct, ray, m, m + if ray then PatchOf(ct).ray else PatchOf(ct).plain)
  {
    hide IsQuantity, PatchOf;
    BaseValues(ct);
    ResourcePrecedence(ct);
  }

  lemma PatchedContainer(ct: ComputeTemplate, role: string, c: Json)
    requires c.Obj?
    ensures var c' := PatchContainer(PatchOf(ct), c, role);
            c'.Obj? && ContainerHolds(ct, role, c.fields, c'.fields)
  {
    hide PatchOf, SideHolds;
    var ray := IsRayContainer(c.fields, role);
    var r := SubMap(c.fields, "resources");
    WrittenSide(ct, ray, SubMap(r, "limits"));
    WrittenSide(ct, ray, SubMap(r, "requests"));
  }

  lemma PatchedContainers(ct: ComputeTemplate, role: string, cs: seq<Json>)
    ensures ContainersHold(ct, role, cs, PatchContainers(PatchOf(ct), cs, role))
  {
    hide PatchOf, ContainerHolds, PatchContainer;
    forall i | 0 <= i < |cs|
      ensures var c' := PatchContainer(PatchOf(ct), cs[i], role);
              if cs[i].Obj? then c'.Obj? && ContainerHolds(ct, role, cs[i].fields, c'.fields) else c' == cs[i]
    {
      if cs[i].Obj? {
        PatchedContainer(ct, role, cs[i]);
      } else {
        OnlyMappingsArePatched(PatchOf(ct), cs[i], role);
      }
    }
  }

  lemma OnlyMappingsArePatched(p: Patch, c: Json, role: string)
    requires !c.Obj?
    ensures PatchContainer(p, c, role) == c
  {
  }

  lemma PatchedPod(ct: ComputeTemplate, role: string, s: map<string, Json>)
    ensures PodHolds(ct, role, s, PatchPodSpec(PatchOf(ct), s, role))
  {
    hide PatchContainers, ContainersHold, TolerationsHold, AddTolerations, PatchOf;
    if "containers" in s && s["containers"].Arr? {
      PatchedContainers(ct, role, s["containers"].elems);
    }
    PatchedTolerations(ct, role, s);
  }

  lemma PatchedTolerations(ct: ComputeTemplate, role: string, s: map<string, Json>)
    ensures PatchOf(ct).tolerations.Some? <==> ct.tolerations.Some?
    ensures ct.tolerations.Some? ==> TolerationsHold(ct.tolerations.value, s, PatchPodSpec(PatchOf(ct), s, role))
  {
    hide PatchContainersOf, BaseResources, GpuResources, ExtendedResources;
    if ct.tolerations.Some? {
      var ts := TolerationTrees(ct.tolerations.value);
      assert PatchPodSpec(PatchOf(ct), s, role)["tolerations"] == AddTolerations(s, ts);
      AddedTolerations(ct.tolerations.value, s);
    }
  }

  lemma AddedTolerations(ts: seq<Toleration>, s: map<string, Json>)
    ensures TolerationsHold(ts, s, s["tolerations" := AddTolerations(s, TolerationTrees(ts))])
  {
  }

  lemma PatchIsNamed(ct: ComputeTemplate)
    ensures PatchOf(ct).name == ct.name
  {
  }

  lemma PatchedPodTemplate(ct: ComputeTemplate, role: string, t: map<string, Json>)
    ensures PodTemplateHolds(ct, role, t, PatchPodTemplate(PatchOf(ct), t, role))
  {
    hide PatchPodSpec, PodHolds, PatchOf;
    PatchIsNamed(ct);
    if "spec" in t && t["spec"].Obj? {
      PatchedPod(ct, role, t["spec"].fields);
    }
  }

  /** The patch of a template does to a group what the template should do. */
  lemma PatchedGroup(ct: ComputeTemplate, role: string, g: map<string, Json>)
    ensures GroupHolds(ct, role, g, PatchGroup(PatchOf(ct), g, role))
  {
    hide PatchPodTemplate, PodTemplateHolds, PatchOf;
    if HasMapping(g, "template") {
      PatchedPodTemplate(ct, role, g["template"].fields);
    }
  }
}
