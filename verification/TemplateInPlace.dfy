/**
  `applyComputeTemplateToRequest` of apiserversdk/util/template.go as it runs: nested
  mappings are looked up, made where missing, and written in place.
 */
module TemplateInPlace {
  import opened Basics
  import opened JsonTree
  import opened MutableTree
  import opened TemplateSpec
  import opened TemplateEffect
  import Decimals

  // ----- limits and requests -----

  method SetBoth(limits: Dict, requests: Dict, k: string, v: Json)
    requires limits != requests
    modifies limits, requests
    ensures limits.entries == old(limits.entries)[k := Scalar(v)]
    ensures requests.entries == old(requests.entries)[k := Scalar(v)]
  {
    limits.entries := limits.entries[k := Scalar(v)];
    requests.entries := requests.entries[k := Scalar(v)];
  }

  lemma PutScalar(m: map<string, Val>, w: map<string, Json>, k: string, v: Json)
    ensures (m + Scalars(w))[k := Scalar(v)] == m + Scalars(w[k := v])
  {
  }

  lemma AddScalars(m: map<string, Val>, w: map<string, Json>, u: map<string, Json>)
    ensures m + Scalars(w) + Scalars(u) == m + Scalars(w + u)
  {
  }

  lemma NoScalars(m: map<string, Val>)
    ensures m + Scalars(map[]) == m
  {
  }

  lemma TakeKey(all: map<string, Json>, todo: set<string>, k: string)
    requires k in todo && k in all
    ensures all - (todo - {k}) == (all - todo)[k := all[k]]
  {
  }

  lemma ExtendedResourcesAt(ct: ComputeTemplate)
    ensures ExtendedResources(ct).Keys == ct.extendedResources.Keys
    ensures forall k :: k in ct.extendedResources ==> ExtendedResources(ct)[k] == Number(ct.extendedResources[k])
  {
  }

  /** The keys come in any order; the outcome is the same for all of them. */
  method SetExtended(limits: Dict, requests: Dict, ct: ComputeTemplate)
    requires limits != requests
    modifies limits, requests
    ensures limits.entries == old(limits.entries) + Scalars(ExtendedResources(ct))
    ensures requests.entries == old(requests.entries) + Scalars(ExtendedResources(ct))
  {
    hide Scalars, ExtendedResources;
    var todo := ct.extendedResources.Keys;
    ghost var all := ExtendedResources(ct);
    ExtendedResourcesAt(ct);
    assert all - todo == map[];
    NoScalars(limits.entries);
    NoScalars(requests.entries);
    while todo != {}
      invariant todo <= ct.extendedResources.Keys == all.Keys
      invariant limits.entries == old(limits.entries) + Scalars(all - todo)
      invariant requests.entries == old(requests.entries) + Scalars(all - todo)
      decreases |todo|
    {
      var k :| k in todo;
      SetBoth(limits, requests, k, Number(ct.extendedResources[k]));
      PutScalar(old(limits.entries), all - todo, k, all[k]);
      PutScalar(old(requests.entries), all - todo, k, all[k]);
      TakeKey(all, todo, k);
      todo := todo - {k};
    }
    assert all - {} == all;
  }

  method SetBase(limits: Dict, requests: Dict, ct: ComputeTemplate)
    requires limits != requests
    modifies limits, requests
    ensures limits.entries == old(limits.entries) + Scalars(BaseResources(ct))
    ensures requests.entries == old(requests.entries) + Scalars(BaseResources(ct))
  {
    var cpu, memory := Str(Decimals.Format(ct.cpu)), Str(Decimals.Format(ct.memory) + ct.memoryUnit);
    SetBoth(limits, requests, "cpu", cpu);
    SetBoth(limits, requests, "memory", memory);
    forall m: map<string, Val>
      ensures m["cpu" := Scalar(cpu)]["memory" := Scalar(memory)] == m + Scalars(BaseResources(ct))
    {
      NoScalars(m);
      PutScalar(m, map[], "cpu", cpu);
      PutScalar(m, map["cpu" := cpu], "memory", memory);
    }
  }

  method SetGpu(limits: Dict, requests: Dict, ct: ComputeTemplate)
    requires limits != requests
    modifies limits, requests
    ensures limits.entries == old(limits.entries) + Scalars(GpuResources(ct))
    ensures requests.entries == old(requests.entries) + Scalars(GpuResources(ct))
  {
    NoScalars(limits.entries);
    NoScalars(requests.entries);
    if ct.gpu != 0 {
      SetBoth(limits, requests, Accelerator(ct), Number(ct.gpu));
      PutScalar(old(limits.entries), map[], Accelerator(ct), Number(ct.gpu));
      PutScalar(old(requests.entries), map[], Accelerator(ct), Number(ct.gpu));
    }
  }

  predicate NamedRay(c: Dict, role: string)
    reads c
  {
    "name" in c.entries && c.entries["name"] == Scalar(Str("ray-" + role))
  }

  method SetResources(ct: ComputeTemplate, c: Dict, limits: Dict, requests: Dict, role: string)
    returns (ghost w: map<string, Json>)
    requires limits != requests && c != limits && c != requests
    modifies limits, requests
    ensures w == if NamedRay(c, role) then PatchOf(ct).ray else PatchOf(ct).plain
    ensures limits.entries == old(limits.entries) + Scalars(w)
    ensures requests.entries == old(requests.entries) + Scalars(w)
  {
    SetBase(limits, requests, ct);
    w := BaseResources(ct);
    if NamedRay(c, role) {
      SetGpu(limits, requests, ct);
      AddScalars(old(limits.entries), w, GpuResources(ct));
      AddScalars(old(requests.entries), w, GpuResources(ct));
      w := w + GpuResources(ct);
      SetExtended(limits, requests, ct);
      AddScalars(old(limits.entries), w, ExtendedResources(ct));
      AddScalars(old(requests.entries), w, ExtendedResources(ct));
      w := w + ExtendedResources(ct);
    }
  }

  lemma PatchWritesScalars(ct: ComputeTemplate)
    ensures ScalarValued(PatchOf(ct).ray) && ScalarValued(PatchOf(ct).plain)
  {
  }

  // ----- containers -----

  /** Limits and requests are two separate mappings below `resources`. */
  ghost predicate Apart(resources: Dict, r: Shape)
    reads Refs(r)
  {
    && Rep(resources, r)
    && "limits" in r.kids && "requests" in r.kids && r.kids["limits"].Node? && r.kids["requests"].Node?
    && var ls, rs := r.kids["limits"], r.kids["requests"];
    && Refs(ls) <= Refs(r) && Refs(rs) <= Refs(r) && Refs(ls) !! Refs(rs)
    && resources in Refs(r) && resources !in Refs(ls) && resources !in Refs(rs)
    && Rep(ls.ref, ls) && ls.ref in Refs(ls)
    && Rep(rs.ref, rs) && rs.ref in Refs(rs)
    && "limits" in resources.entries && resources.entries["limits"] == Map(ls.ref)
    && "requests" in resources.entries && resources.entries["requests"] == Map(rs.ref)
    && SubMap(Tree(r).fields, "limits") == Tree(ls).fields
    && SubMap(Tree(r).fields, "requests") == Tree(rs).fields
  }

  lemma LimitsAndRequestsAreApart(resources: Dict, r: Shape)
    requires Rep(resources, r)
    requires "limits" in r.kids && "requests" in r.kids && r.kids["limits"].Node? && r.kids["requests"].Node?
    ensures Apart(resources, r)
  {
    hide Rep, Owned, Holds, Tree, Refs;
    RepRoot(resources, r);
    RepKid(resources, r, "limits");
    RepKid(resources, r, "requests");
    KidsAreDisjoint(resources, r, "limits", "requests");
    RepRoot(resources.entries["limits"].ref, r.kids["limits"]);
    RepRoot(resources.entries["requests"].ref, r.kids["requests"]);
  }

  /** The resources after the same scalars were written into limits and requests. */
  twostate lemma ResourcesFilled(resources: Dict, new r: Shape, new w: map<string, Json>) returns (r': Shape)
    requires old(allocated(r)) && old(allocated(Refs(r)))
    requires old(Apart(resources, r)) && ScalarValued(w)
    requires var limits, requests := r.kids["limits"].ref, r.kids["requests"].ref;
             && limits.entries == old(limits.entries) + Scalars(w)
             && requests.entries == old(requests.entries) + Scalars(w)
             && forall x :: x in Refs(r) && x != limits && x != requests ==> unchanged(x)
    ensures Rep(resources, r') && Refs(r') <= Refs(r)
    ensures Tree(r') == Obj(WithLimitsAndRequests(Tree(r).fields, w))
  {
    hide Owned, Holds, Tree, Refs;
    var ls, rs := r.kids["limits"], r.kids["requests"];
    Fill(ls.ref, ls, w);
    Fill(rs.ref, rs, w);
    OwnedWhenFilled(ls, w);
    OwnedWhenFilled(rs, w);
    ReassembleTwo(resources, r, "limits", Filled(ls, w), "requests", Filled(rs, w));
    r' := r.(kids := r.kids["limits" := Filled(ls, w)]["requests" := Filled(rs, w)]);
  }

  lemma MakingMapsFirstIsInvisible(f: map<string, Json>, w: map<string, Json>)
    ensures var g := f["limits" := Obj(SubMap(f, "limits"))];
            WithLimitsAndRequests(g["requests" := Obj(SubMap(g, "requests"))], w) == WithLimitsAndRequests(f, w)
  {
  }

  method FillResources(ct: ComputeTemplate, c: Dict, resources: Dict, role: string, ghost r: Shape)
    returns (ghost r': Shape, ghost w: map<string, Json>)
    requires Rep(resources, r) && c !in Refs(r)
    modifies Refs(r)
    ensures w == if NamedRay(c, role) then PatchOf(ct).ray else PatchOf(ct).plain
    ensures Rep(resources, r')
    ensures forall x :: x in Refs(r') ==> x in Refs(r) || fresh(x)
    ensures Tree(r') == Obj(WithLimitsAndRequests(Tree(r).fields, w))
  {
    hide Rep, Owned, Holds, Tree, Refs, PatchOf, NamedRay, WithLimitsAndRequests, SubMap, Scalars, ScalarValued;
    ghost var r1, r2;
    var limits, requests;
    RepRoot(resources, r);
    limits, r1 := GetOrCreate(resources, "limits", r);
    RepRoot(resources, r1);
    RepKid(resources, r1, "limits");
    RepRoot(limits, r1.kids["limits"]);
    requests, r2 := GetOrCreate(resources, "requests", r1);
    RepRoot(resources, r2);
    RepKid(resources, r2, "requests");
    RepRoot(requests, r2.kids["requests"]);
    LimitsAndRequestsAreApart(resources, r2);
    label filling:
    w := SetResources(ct, c, limits, requests, role);
    PatchWritesScalars(ct);
    r' := ResourcesFilled@filling(resources, r2, w);
    MakingMapsFirstIsInvisible(Tree(r).fields, w);
  }

  /** One container of the pod, through its own mapping. */
  method ApplyToContainer(ct: ComputeTemplate, c: Dict, role: string, ghost s: Shape) returns (ghost s': Shape)
    requires Rep(c, s)
    modifies Refs(s)
    ensures Rep(c, s')
    ensures forall x :: x in Refs(s') ==> x in Refs(s) || fresh(x)
    ensures Tree(s') == PatchContainer(PatchOf(ct), Tree(s), role)
    ensures ContainerHolds(ct, role, Tree(s).fields, Tree(s').fields)
  {
    hide Rep, Owned, Holds, Tree, Refs, PatchOf, NamedRay, IsRayContainer, WithLimitsAndRequests, ContainerHolds;
    ghost var s1, r', w;
    var resources;
    RepRoot(c, s);
    resources, s1 := GetOrCreate(c, "resources", s);
    RepRoot(c, s1);
    RepKid(c, s1, "resources");
    RepRoot(resources, s1.kids["resources"]);
    RayNameIsInTheTree(c, role, s1);
    RayNameOutsideResources(Tree(s).fields, Tree(s1).fields["resources"], role);
    label filling:
    r', w := FillResources(ct, c, resources, role, s1.kids["resources"]);
    ReassembleMap@filling(c, s1, "resources", r');
    s' := s1.(kids := s1.kids["resources" := r']);
    PatchedContainer(ct, role, Tree(s));
  }

  lemma RayNameOutsideResources(f: map<string, Json>, r: Json, role: string)
    ensures IsRayContainer(f["resources" := r], role) == IsRayContainer(f, role)
  {
  }

  lemma RayNameIsInTheTree(c: Dict, role: string, s: Shape)
    requires Rep(c, s)
    ensures NamedRay(c, role) == IsRayContainer(Tree(s).fields, role)
  {
    if "name" in s.kids {
      assert Holds(c.entries["name"], s.kids["name"]);
      KindOfValue(c.entries["name"], s.kids["name"]);
    }
  }

  method ApplyToContainers(ct: ComputeTemplate, containers: seq<Val>, role: string, ghost items: seq<Shape>)
    returns (ghost items': seq<Shape>)
    requires RepList(containers, items)
    modifies Refs(ListOf(items))
    ensures RepList(containers, items') && |items'| == |items|
    ensures forall x :: x in Refs(ListOf(items')) ==> x in Refs(ListOf(items)) || fresh(x)
    ensures forall i :: 0 <= i < |items| ==> Tree(items'[i]) == PatchContainer(PatchOf(ct), Tree(items[i]), role)
  {
    hide Rep, RepList, Owned, Holds, Tree, Refs, PatchOf, IsRayContainer, WithResources;
    items' := items;
    assert |containers| == |items| by {
      LengthOfList(containers, items);
    }
    for n := 0 to |containers|
      invariant RepList(containers, items') && |items'| == |items| == |containers|
      invariant forall x :: x in Refs(ListOf(items')) ==> x in Refs(ListOf(items)) || fresh(x)
      invariant forall i :: n <= i < |items| ==> items'[i] == items[i]
      invariant forall i :: 0 <= i < n ==> Tree(items'[i]) == PatchContainer(PatchOf(ct), Tree(items[i]), role)
    {
      RepElem(containers, items', n);
      if containers[n].Map? {
        label applying:
        ghost var c := ApplyToContainer(ct, containers[n].ref, role, items'[n]);
        ReassembleElem@applying(containers, items', n, c);
        items' := items'[n := c];
      }
    }
  }

  // ----- tolerations -----

  method NewToleration(t: Toleration) returns (d: Dict, ghost s: Shape)
    ensures fresh(d) && Rep(d, s) && Refs(s) == {d} && Tree(s) == TolerationTree(t)
  {
    ghost var w := TolerationTree(t).fields;
    d := new Dict();
    d.entries := map["key" := Scalar(Str(t.key)), "operator" := Scalar(Str(t.operator)),
                     "value" := Scalar(Str(t.value)), "effect" := Scalar(Str(t.effect))];
    assert d.entries == Scalars(w);
    s := Node(d, Leaves(w));
    FlatMapping(d, w);
  }

  method AppendTolerations(existing: seq<Val>, ts: seq<Toleration>, ghost items: seq<Shape>)
    returns (all: seq<Val>, ghost items': seq<Shape>)
    requires RepList(existing, items)
    ensures RepList(all, items') && |items'| == |items| + |ts| && |all| == |items'|
    ensures forall x :: x in Refs(ListOf(items')) ==> x in Refs(ListOf(items)) || fresh(x)
    ensures items'[..|items|] == items
    ensures forall i :: 0 <= i < |ts| ==> Tree(items'[|items| + i]) == TolerationTree(ts[i])
  {
    hide Rep, RepList, Owned, Holds, Tree, Refs, TolerationTree;
    all, items' := existing, items;
    for n := 0 to |ts|
      invariant RepList(all, items') && |items'| == |items| + n
      invariant forall x :: x in Refs(ListOf(items')) ==> x in Refs(ListOf(items)) || fresh(x)
      invariant items'[..|items|] == items
      invariant forall i :: 0 <= i < n ==> Tree(items'[|items| + i]) == TolerationTree(ts[i])
    {
      var t;
      ghost var c;
      assert allocated(Refs(ListOf(items')));
      t, c := NewToleration(ts[n]);
      RepListAppend(all, items', t, c);
      all, items' := all + [Map(t)], items' + [c];
    }
    LengthOfList(all, items');
  }

  // ----- pod spec and template -----

  method ApplyContainers(ct: ComputeTemplate, spec: Dict, role: string, ghost s: Shape) returns (ghost s': Shape)
    requires Rep(spec, s)
    modifies Refs(s)
    ensures Rep(spec, s')
    ensures forall x :: x in Refs(s') ==> x in Refs(s) || fresh(x)
    ensures Tree(s') == Obj(PatchContainersOf(PatchOf(ct), Tree(s).fields, role))
  {
    hide Rep, RepList, Owned, Holds, Tree, Refs, PatchOf, PatchContainer;
    RepRoot(spec, s);
    s' := s;
    if "containers" in spec.entries {
      RepKid(spec, s, "containers");
      if spec.entries["containers"].List? {
        ghost var items := s.kids["containers"].items;
        assert s.kids["containers"] == ListOf(items);
        ghost var items' := ApplyToContainers(ct, spec.entries["containers"].elems, role, items);
        ReassembleList(spec, s, "containers", items');
        s' := s.(kids := s.kids["containers" := ListOf(items')]);
        TreeOfList(items);
        TreeOfList(items');
        assert Tree(ListOf(items')).elems == PatchContainers(PatchOf(ct), Tree(ListOf(items)).elems, role);
      }
    }
  }

  method ApplyTolerations(ts: seq<Toleration>, spec: Dict, ghost s: Shape) returns (ghost s': Shape)
    requires Rep(spec, s)
    modifies spec
    ensures Rep(spec, s')
    ensures forall x :: x in Refs(s') ==> x in Refs(s) || fresh(x)
    ensures Tree(s') == Obj(Tree(s).fields["tolerations" := AddTolerations(Tree(s).fields, TolerationTrees(ts))])
  {
    hide Rep, RepList, Owned, Holds, Tree, Refs, TolerationTree;
    RepRoot(spec, s);
    if "tolerations" in spec.entries {
      RepKid(spec, s, "tolerations");
    }
    var present := "tolerations" in spec.entries && spec.entries["tolerations"].List?;
    var existing := if present then spec.entries["tolerations"].elems else [];
    ghost var items := if present then s.kids["tolerations"].items else [];
    EmptyList();
    ghost var items';
    var all;
    all, items' := AppendTolerations(existing, ts, items);
    // A slice that was not there and got no element is nil, which encodes as null.
    var v := if present || all != [] then List(all) else Scalar(Null);
    ghost var c := if present || all != [] then ListOf(items') else Leaf(Null);
    spec.entries := spec.entries["tolerations" := v];
    assert Owned(c) && Holds(v, c) && Refs(c) <= Refs(ListOf(items')) by {
      ListOrNull(all, items', c);
    }
    assert s.kids.Keys == old(spec.entries.Keys);
    Reassemble(spec, s, "tolerations", c);
    s' := s.(kids := s.kids["tolerations" := c]);
    assert Tree(c) == AddTolerations(Tree(s).fields, TolerationTrees(ts)) by {
      AppendedTree(s, present, items, items', ts, c);
    }
  }

  lemma EmptyList()
    ensures RepList([], []) && Refs(ListOf([])) == {}
  {
  }

  lemma ListOrNull(all: seq<Val>, items: seq<Shape>, c: Shape)
    requires RepList(all, items) && (c == ListOf(items) || c == Leaf(Null))
    ensures Owned(c) && Holds(if c.ListOf? then List(all) else Scalar(Null), c) && Refs(c) <= Refs(ListOf(items))
  {
  }

  lemma AppendedTree(s: Shape, present: bool, items: seq<Shape>, items': seq<Shape>, ts: seq<Toleration>, c: Shape)
    requires s.Node? && Tree(s).Obj?
    requires present == ("tolerations" in Tree(s).fields && Tree(s).fields["tolerations"].Arr?)
    requires if present then Tree(s).fields["tolerations"] == Tree(ListOf(items)) else items == []
    requires |items'| == |items| + |ts| && items'[..|items|] == items
    requires forall i :: 0 <= i < |ts| ==> Tree(items'[|items| + i]) == TolerationTree(ts[i])
    requires c == if present || items' != [] then ListOf(items') else Leaf(Null)
    ensures Tree(c) == AddTolerations(Tree(s).fields, TolerationTrees(ts))
  {
    hide TolerationTree;
    var f := Tree(s).fields;
    if present || items' != [] {
      TreeOfList(items);
      TreeOfList(items');
      assert Tree(c).elems == Tree(ListOf(items)).elems + TolerationTrees(ts) by {
        forall i | 0 <= i < |items|
          ensures Tree(items'[i]) == Tree(items[i])
        {
          assert items'[..|items|][i] == items'[i];
        }
      }
      assert items == [] ==> Tree(ListOf(items)).elems + TolerationTrees(ts) == TolerationTrees(ts);
    }
  }

  lemma TolerationsAndContainersAreApart(p: Patch, f: map<string, Json>, role: string, ts: seq<Json>)
    ensures AddTolerations(PatchContainersOf(p, f, role), ts) == AddTolerations(f, ts)
  {
  }

  method ApplyToPodSpec(ct: ComputeTemplate, spec: Dict, role: string, ghost s: Shape) returns (ghost s': Shape)
    requires Rep(spec, s)
    modifies Refs(s)
    ensures Rep(spec, s')
    ensures forall x :: x in Refs(s') ==> x in Refs(s) || fresh(x)
    ensures Tree(s') == Obj(PatchPodSpec(PatchOf(ct), Tree(s).fields, role))
  {
    hide Rep, RepList, Owned, Holds, Tree, Refs, PatchContainersOf, AddTolerations, TolerationTrees;
    RepRoot(spec, s);
    s' := ApplyContainers(ct, spec, role, s);
    if ct.tolerations.Some? {
      s' := ApplyTolerations(ct.tolerations.value, spec, s');
      TolerationsAndContainersAreApart(PatchOf(ct), Tree(s).fields, role, TolerationTrees(ct.tolerations.value));
    }
  }

  method SetAnnotation(annotations: Dict, name: string, ghost a: Shape) returns (ghost a': Shape)
    requires Rep(annotations, a)
    modifies annotations
    ensures Rep(annotations, a') && Refs(a') <= Refs(a)
    ensures Tree(a') == Obj(Tree(a).fields[ANNOTATION_KEY := Str(name)])
  {
    hide Rep, Owned, Holds, Tree, Refs;
    RepRoot(annotations, a);
    ghost var w := map[ANNOTATION_KEY := Str(name)];
    annotations.entries := annotations.entries[ANNOTATION_KEY := Scalar(Str(name))];
    assert annotations.entries == old(annotations.entries) + Scalars(w);
    Fill(annotations, a, w);
    OwnedWhenFilled(a, w);
    a' := Filled(a, w);
    assert Tree(a).fields + w == Tree(a).fields[ANNOTATION_KEY := Str(name)];
  }

  method AnnotateMetadata(metadata: Dict, name: string, ghost m: Shape) returns (ghost m': Shape)
    requires Rep(metadata, m)
    modifies Refs(m)
    ensures Rep(metadata, m')
    ensures forall x :: x in Refs(m') ==> x in Refs(m) || fresh(x)
    ensures var annotations := SubMap(Tree(m).fields, "annotations")[ANNOTATION_KEY := Str(name)];
            Tree(m') == Obj(Tree(m).fields["annotations" := Obj(annotations)])
  {
    hide Rep, Owned, Holds, Tree, Refs;
    ghost var m1;
    var annotations;
    RepRoot(metadata, m);
    annotations, m1 := GetOrCreate(metadata, "annotations", m);
    RepRoot(metadata, m1);
    RepKid(metadata, m1, "annotations");
    RepRoot(annotations, m1.kids["annotations"]);
    label annotating:
    ghost var a := SetAnnotation(annotations, name, m1.kids["annotations"]);
    ReassembleMap@annotating(metadata, m1, "annotations", a);
    m' := m1.(kids := m1.kids["annotations" := a]);
  }

  method AnnotateTemplate(template: Dict, name: string, ghost s: Shape) returns (ghost s': Shape)
    requires Rep(template, s)
    modifies Refs(s)
    ensures Rep(template, s')
    ensures forall x :: x in Refs(s') ==> x in Refs(s) || fresh(x)
    ensures Tree(s') == Obj(Annotate(Tree(s).fields, name))
  {
    hide Rep, Owned, Holds, Tree, Refs;
    ghost var s1;
    var metadata;
    RepRoot(template, s);
    metadata, s1 := GetOrCreate(template, "metadata", s);
    RepRoot(template, s1);
    RepKid(template, s1, "metadata");
    RepRoot(metadata, s1.kids["metadata"]);
    label annotating:
    ghost var m := AnnotateMetadata(metadata, name, s1.kids["metadata"]);
    ReassembleMap@annotating(template, s1, "metadata", m);
    s' := s1.(kids := s1.kids["metadata" := m]);
  }

  method ApplyToPodTemplate(ct: ComputeTemplate, template: Dict, role: string, ghost s: Shape) returns (ghost s': Shape)
    requires Rep(template, s)
    modifies Refs(s)
    ensures Rep(template, s')
    ensures forall x :: x in Refs(s') ==> x in Refs(s) || fresh(x)
    ensures Tree(s') == Obj(PatchPodTemplate(PatchOf(ct), Tree(s).fields, role))
  {
    hide Rep, Owned, Holds, Tree, Refs, PatchPodSpec;
    s' := AnnotateTemplate(template, ct.name, s);
    RepRoot(template, s');
    if "spec" in template.entries {
      RepKid(template, s', "spec");
      if template.entries["spec"].Map? {
        label applying:
        ghost var c := ApplyToPodSpec(ct, template.entries["spec"].ref, role, s'.kids["spec"]);
        ReassembleMap@applying(template, s', "spec", c);
        s' := s'.(kids := s'.kids["spec" := c]);
      }
    }
  }

  /** `applyComputeTemplateToRequest`: the mapping of a head or worker group, rewritten in place. */
  method ApplyToGroup(ct: ComputeTemplate, group: Dict, role: string, ghost s: Shape) returns (ghost s': Shape)
    requires Rep(group, s)
    modifies Refs(s)
    ensures Rep(group, s')
    ensures forall x :: x in Refs(s') ==> x in Refs(s) || fresh(x)
    ensures Tree(s') == Obj(PatchGroup(PatchOf(ct), Tree(s).fields, role))
    ensures GroupHolds(ct, role, Tree(s).fields, Tree(s').fields)
  {
    hide Rep, Owned, Holds, Tree, Refs, PatchPodTemplate, GroupHolds;
    s' := s;
    RepRoot(group, s);
    if "template" in group.entries {
      RepKid(group, s, "template");
      if group.entries["template"].Map? {
        ghost var c := ApplyToPodTemplate(ct, group.entries["template"].ref, role, s.kids["template"]);
        ReassembleMap(group, s, "template", c);
        s' := s.(kids := s.kids["template" := c]);
      }
    }
    PatchedGroup(ct, role, Tree(s).fields);
  }
}
