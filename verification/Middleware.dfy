/**
  The compute-template middleware of apiserversdk/util/template.go: from the request body
  to exactly one effect, an error written or the next handler called.
 */
module Middleware {
  import opened Basics
  import opened JsonTree
  import opened MutableTree
  import opened TemplateSpec
  import opened TemplateEffect
  import opened TemplateInPlace

  /** The answer of the store when the group at a position (-1 for the head, i for worker i) asks
      for a template by name. Each group asks at most once, so the store may change in between. */
  type Lookup = (int, string) -> Option<ComputeTemplate>

  // ----- on trees -----

  predicate NamesTemplate(g: Json) {
    g.Obj? && "computeTemplate" in g.fields && g.fields["computeTemplate"].Str?
  }

  /** The group after the middleware, or None if its template is not found. */
  function GroupResult(g: Json, at: int, role: string, lookup: Lookup): Option<Json> {
    if NamesTemplate(g) then
      var found := lookup(at, g.fields["computeTemplate"].s);
      if found.Some? then Some(Obj(PatchGroup(PatchOf(found.value), g.fields, role))) else None
    else
      Some(g)
  }

  function HeadResult(f: map<string, Json>, lookup: Lookup): Option<map<string, Json>> {
    if "headGroupSpec" !in f then Some(f) else
    var head := GroupResult(f["headGroupSpec"], -1, "head", lookup);
    if head.Some? then Some(f["headGroupSpec" := head.value]) else None
  }

  predicate AllFound(ws: seq<Json>, lookup: Lookup) {
    forall i :: 0 <= i < |ws| ==> GroupResult(ws[i], i, "worker", lookup).Some?
  }

  function Workers(ws: seq<Json>, lookup: Lookup): seq<Json>
    requires AllFound(ws, lookup)
  {
    seq(|ws|, i requires 0 <= i < |ws| => GroupResult(ws[i], i, "worker", lookup).value)
  }

  function WorkersResult(f: map<string, Json>, lookup: Lookup): Option<map<string, Json>> {
    if "workerGroupSpecs" !in f || !f["workerGroupSpecs"].Arr? then Some(f)
    else if AllFound(f["workerGroupSpecs"].elems, lookup)
    then Some(f["workerGroupSpecs" := Arr(Workers(f["workerGroupSpecs"].elems, lookup))])
    else None
  }

  function ClusterResult(f: map<string, Json>, lookup: Lookup): Option<map<string, Json>> {
    var head := HeadResult(f, lookup);
    if head.Some? then WorkersResult(head.value, lookup) else None
  }

  /** The layouts of RayJob and RayService keep the cluster one level down; RayCluster is the rest. */
  function ClusterKey(spec: map<string, Json>): Option<string> {
    if "rayClusterSpec" in spec && spec["rayClusterSpec"].Obj? then Some("rayClusterSpec")
    else if "rayClusterConfig" in spec && spec["rayClusterConfig"].Obj? then Some("rayClusterConfig")
    else None
  }

  function SpecResult(spec: map<string, Json>, lookup: Lookup): Option<map<string, Json>> {
    match ClusterKey(spec)
    case None => ClusterResult(spec, lookup)
    case Some(k) =>
      var cluster := ClusterResult(spec[k].fields, lookup);
      if cluster.Some? then Some(spec[k := Obj(cluster.value)]) else None
  }

  datatype Body = Original(bytes: Bytes) | Encoded(json: Json)
  datatype Effect = WriteError(status: int) | CallNext(body: Body)
  datatype Decoded = Malformed | NilMap | Fields(fields: map<string, Json>)

  function Outcome(body: Option<Bytes>, request: Decoded, lookup: Lookup, encodes: Json -> bool): Effect {
    if body.None? then WriteError(400)
    else match request
    case Malformed => WriteError(400)
    case NilMap => CallNext(Original(body.value))
    case Fields(f) =>
      if !("spec" in f && f["spec"].Obj?) then CallNext(Original(body.value)) else
      var spec := SpecResult(f["spec"].fields, lookup);
      if spec.None? then WriteError(422) else
      var rewritten := Obj(f["spec" := Obj(spec.value)]);
      if encodes(rewritten) then CallNext(Encoded(rewritten)) else WriteError(500)
  }

  // ----- what is promised, key by key -----

  /** The group asks for a template that the store does not have. */
  ghost predicate GroupMisses(lookup: Lookup, at: int, g: Json) {
    && g.Obj? && "computeTemplate" in g.fields && g.fields["computeTemplate"].Str?
    && lookup(at, g.fields["computeTemplate"].s).None?
  }

  /** A group that names a template has it applied, in its role; any other stays as it is. */
  ghost predicate GroupForwards(lookup: Lookup, at: int, role: string, g: Json, g': Json) {
    if g.Obj? && "computeTemplate" in g.fields && g.fields["computeTemplate"].Str? then
      var found := lookup(at, g.fields["computeTemplate"].s);
      found.Some? && g'.Obj? && GroupHolds(found.value, role, g.fields, g'.fields)
    else
      g' == g
  }

  ghost predicate ClusterMisses(lookup: Lookup, c: map<string, Json>) {
    || ("headGroupSpec" in c && GroupMisses(lookup, -1, c["headGroupSpec"]))
    || ("workerGroupSpecs" in c && c["workerGroupSpecs"].Arr? &&
        exists i :: 0 <= i < |c["workerGroupSpecs"].elems| && GroupMisses(lookup, i, c["workerGroupSpecs"].elems[i]))
  }

  ghost predicate WorkersForward(lookup: Lookup, ws: Json, ws': Json) {
    if ws.Arr? then
      && ws'.Arr? && |ws'.elems| == |ws.elems|
      && forall i :: 0 <= i < |ws.elems| ==> GroupForwards(lookup, i, "worker", ws.elems[i], ws'.elems[i])
    else
      ws' == ws
  }

  ghost predicate ClusterForwards(lookup: Lookup, c: map<string, Json>, c': map<string, Json>) {
    && AgreeOutside(c', c, {"headGroupSpec", "workerGroupSpecs"})
    && ("headGroupSpec" in c' <==> "headGroupSpec" in c)
    && ("headGroupSpec" in c ==> GroupForwards(lookup, -1, "head", c["headGroupSpec"], c'["headGroupSpec"]))
    && ("workerGroupSpecs" in c' <==> "workerGroupSpecs" in c)
    && ("workerGroupSpecs" in c ==> WorkersForward(lookup, c["workerGroupSpecs"], c'["workerGroupSpecs"]))
  }

  /** The cluster is under rayClusterSpec in a RayJob, under rayClusterConfig in a RayService, and
      the spec itself in a RayCluster. */
  ghost predicate SpecMisses(lookup: Lookup, spec: map<string, Json>) {
    if HasMapping(spec, "rayClusterSpec") then ClusterMisses(lookup, spec["rayClusterSpec"].fields)
    else if HasMapping(spec, "rayClusterConfig") then ClusterMisses(lookup, spec["rayClusterConfig"].fields)
    else ClusterMisses(lookup, spec)
  }

  ghost predicate SpecForwards(lookup: Lookup, spec: map<string, Json>, spec': map<string, Json>) {
    if HasMapping(spec, "rayClusterSpec") then
      && AgreeOutside(spec', spec, {"rayClusterSpec"}) && HasMapping(spec', "rayClusterSpec")
      && ClusterForwards(lookup, spec["rayClusterSpec"].fields, spec'["rayClusterSpec"].fields)
    else if HasMapping(spec, "rayClusterConfig") then
      && AgreeOutside(spec', spec, {"rayClusterConfig"}) && HasMapping(spec', "rayClusterConfig")
      && ClusterForwards(lookup, spec["rayClusterConfig"].fields, spec'["rayClusterConfig"].fields)
    else
      ClusterForwards(lookup, spec, spec')
  }

  ghost predicate RequestForwards(lookup: Lookup, f: map<string, Json>, f': map<string, Json>)
    requires HasMapping(f, "spec")
  {
    && AgreeOutside(f', f, {"spec"}) && HasMapping(f', "spec")
    && SpecForwards(lookup, f["spec"].fields, f'["spec"].fields)
  }

  /** The one right answer to a request: 400 if it cannot be read; its own bytes if it has no mapping
      as spec; 422 if some group's template is missing; otherwise the request with every template
      applied, unless that cannot be encoded. */
  ghost predicate Answers(body: Option<Bytes>, request: Decoded, lookup: Lookup, encodes: Json -> bool, e: Effect) {
    if body.None? || request.Malformed? then e == WriteError(400)
    else if request.NilMap? || !HasMapping(request.fields, "spec") then e == CallNext(Original(body.value))
    else if SpecMisses(lookup, request.fields["spec"].fields) then e == WriteError(422)
    else exists f' :: RequestForwards(lookup, request.fields, f') &&
                      e == if encodes(Obj(f')) then CallNext(Encoded(Obj(f'))) else WriteError(500)
  }

  // ----- and kept -----

  lemma GroupKept(g: Json, at: int, role: string, lookup: Lookup)
    ensures GroupResult(g, at, role, lookup).None? <==> GroupMisses(lookup, at, g)
    ensures var r := GroupResult(g, at, role, lookup); r.Some? ==> GroupForwards(lookup, at, role, g, r.value)
  {
    hide GroupHolds, PatchGroup, PatchOf;
    if NamesTemplate(g) {
      var found := lookup(at, g.fields["computeTemplate"].s);
      if found.Some? {
        PatchedGroup(found.value, role, g.fields);
      }
    }
  }

  lemma WorkersKept(f: map<string, Json>, lookup: Lookup)
    requires "workerGroupSpecs" in f
    ensures var ws := f["workerGroupSpecs"];
            var r := WorkersResult(f, lookup);
            && (r.None? <==> ws.Arr? && exists i :: 0 <= i < |ws.elems| && GroupMisses(lookup, i, ws.elems[i]))
            && (r.Some? ==> "workerGroupSpecs" in r.value && WorkersForward(lookup, ws, r.value["workerGroupSpecs"]))
  {
    hide GroupResult, GroupMisses, GroupForwards;
    var ws := f["workerGroupSpecs"];
    if ws.Arr? {
      forall i | 0 <= i < |ws.elems|
        ensures GroupResult(ws.elems[i], i, "worker", lookup).None? <==> GroupMisses(lookup, i, ws.elems[i])
        ensures var r := GroupResult(ws.elems[i], i, "worker", lookup);
                r.Some? ==> GroupForwards(lookup, i, "worker", ws.elems[i], r.value)
      {
        GroupKept(ws.elems[i], i, "worker", lookup);
      }
    }
  }

  /** Either every group that names a template has it applied, in its own role, and nothing else
      changes, or some template is missing and there is no result. */
  lemma ClusterAllOrNothing(f: map<string, Json>, lookup: Lookup)
    ensures ClusterResult(f, lookup).None? <==> ClusterMisses(lookup, f)
    ensures var r := ClusterResult(f, lookup); r.Some? ==> ClusterForwards(lookup, f, r.value)
  {
    hide GroupResult, GroupMisses, GroupForwards, WorkersResult, WorkersForward;
    if "headGroupSpec" in f {
      GroupKept(f["headGroupSpec"], -1, "head", lookup);
    }
    var head := HeadResult(f, lookup);
    if head.Some? {
      WorkersOnly(head.value, lookup);
      if "workerGroupSpecs" in f {
        WorkersKept(head.value, lookup);
      }
      var r := WorkersResult(head.value, lookup);
      if r.Some? {
        assert AgreeOutside(head.value, f, {"headGroupSpec"});
        AgreeOutsideBoth(r.value, head.value, f, "workerGroupSpecs", "headGroupSpec");
      }
    }
  }

  lemma AgreeOutsideBoth(h: map<string, Json>, g: map<string, Json>, f: map<string, Json>, k: string, l: string)
    requires AgreeOutside(h, g, {k}) && AgreeOutside(g, f, {l}) && k != l
    ensures AgreeOutside(h, f, {l, k})
    ensures (l in h <==> l in g) && (l in g ==> h[l] == g[l])
  {
    forall j
      ensures j in h.Keys - {l, k} <==> j in f.Keys - {l, k}
    {
      assert j in h.Keys - {k} <==> j in g.Keys - {k};
      assert j in g.Keys - {l} <==> j in f.Keys - {l};
    }
    assert l in h.Keys - {k} <==> l in g.Keys - {k};
  }

  lemma WorkersOnly(f: map<string, Json>, lookup: Lookup)
    ensures var r := WorkersResult(f, lookup); r.Some? ==> AgreeOutside(r.value, f, {"workerGroupSpecs"})
    ensures "workerGroupSpecs" !in f ==> WorkersResult(f, lookup) == Some(f)
  {
  }

  lemma SpecKept(spec: map<string, Json>, lookup: Lookup)
    ensures SpecResult(spec, lookup).None? <==> SpecMisses(lookup, spec)
    ensures var r := SpecResult(spec, lookup); r.Some? ==> SpecForwards(lookup, spec, r.value)
  {
    hide ClusterResult, ClusterMisses, ClusterForwards;
    ClusterAllOrNothing(spec, lookup);
    if HasMapping(spec, "rayClusterSpec") {
      ClusterAllOrNothing(spec["rayClusterSpec"].fields, lookup);
    }
    if HasMapping(spec, "rayClusterConfig") {
      ClusterAllOrNothing(spec["rayClusterConfig"].fields, lookup);
    }
  }

  /** Every request gets the right answer. */
  lemma RequestAllOrNothing(body: Option<Bytes>, request: Decoded, lookup: Lookup, encodes: Json -> bool)
    ensures Answers(body, request, lookup, encodes, Outcome(body, request, lookup, encodes))
  {
    hide SpecResult, SpecMisses, SpecForwards;
    if body.Some? && request.Fields? && HasMapping(request.fields, "spec") {
      SpecKept(request.fields["spec"].fields, lookup);
      var spec := SpecResult(request.fields["spec"].fields, lookup);
      if spec.Some? {
        assert RequestForwards(lookup, request.fields, request.fields["spec" := Obj(spec.value)]);
      }
    }
  }

  // ----- in place -----

  /** What the handler did to the outside world, in order. */
  class Exchange {
    var effects: seq<Effect>

    constructor ()
      ensures effects == []
    {
      effects := [];
    }

    method Do(e: Effect)
      modifies this
      ensures effects == old(effects) + [e]
    {
      effects := effects + [e];
    }
  }

  datatype Request = Malformed | NilMap | Root(root: Dict)

  ghost function DecodedOf(request: Request, s: Shape): Decoded
    requires Tree(s).Obj?
  {
    match request
    case Malformed => Decoded.Malformed
    case NilMap => Decoded.NilMap
    case Root(_) => Fields(Tree(s).fields)
  }

  method ProcessGroup(group: Dict, at: int, role: string, lookup: Lookup, ghost s: Shape)
    returns (ok: bool, ghost s': Shape)
    requires Rep(group, s)
    modifies Refs(s)
    ensures Rep(group, s')
    ensures forall x :: x in Refs(s') ==> x in Refs(s) || fresh(x)
    ensures GroupResult(Tree(s), at, role, lookup) == if ok then Some(Tree(s')) else None
  {
    hide Rep, Owned, Holds, Tree, Refs, PatchGroup, PatchOf;
    ok, s' := true, s;
    RepRoot(group, s);
    if "computeTemplate" in group.entries {
      RepKid(group, s, "computeTemplate");
      var v := group.entries["computeTemplate"];
      if v.Scalar? && v.value.Str? {
        var found := lookup(at, v.value.s);
        if found.None? {
          return false, s;
        }
        s' := ApplyToGroup(found.value, group, role, s);
      }
    }
  }

  method ProcessWorkers(groups: seq<Val>, lookup: Lookup, ghost items: seq<Shape>)
    returns (ok: bool, ghost items': seq<Shape>)
    requires RepList(groups, items)
    modifies Refs(ListOf(items))
    ensures RepList(groups, items') && |items'| == |items|
    ensures forall x :: x in Refs(ListOf(items')) ==> x in Refs(ListOf(items)) || fresh(x)
    ensures ok ==> forall i :: 0 <= i < |items| ==>
              GroupResult(Tree(items[i]), i, "worker", lookup) == Some(Tree(items'[i]))
    ensures !ok ==> exists i :: 0 <= i < |items| && GroupResult(Tree(items[i]), i, "worker", lookup) == None
  {
    hide Rep, RepList, Owned, Holds, Tree, Refs, PatchGroup, PatchOf;
    ok, items' := true, items;
    LengthOfList(groups, items);
    for n := 0 to |groups|
      invariant RepList(groups, items') && |items'| == |items| == |groups|
      invariant forall x :: x in Refs(ListOf(items')) ==> x in Refs(ListOf(items)) || fresh(x)
      invariant forall i :: n <= i < |items| ==> items'[i] == items[i]
      invariant forall i :: 0 <= i < n ==> GroupResult(Tree(items[i]), i, "worker", lookup) == Some(Tree(items'[i]))
    {
      RepElem(groups, items', n);
      if groups[n].Map? {
        ghost var c;
        label processing:
        ok, c := ProcessGroup(groups[n].ref, n, "worker", lookup, items'[n]);
        ReassembleElem@processing(groups, items', n, c);
        items' := items'[n := c];
        if !ok {
          return;
        }
      }
    }
  }

  method ProcessHead(cluster: Dict, lookup: Lookup, ghost s: Shape) returns (ok: bool, ghost s': Shape)
    requires Rep(cluster, s)
    modifies Refs(s)
    ensures Rep(cluster, s')
    ensures forall x :: x in Refs(s') ==> x in Refs(s) || fresh(x)
    ensures HeadResult(Tree(s).fields, lookup) == if ok then Some(Tree(s').fields) else None
  {
    hide Rep, Owned, Holds, Tree, Refs, PatchGroup, PatchOf;
    ok, s' := true, s;
    RepRoot(cluster, s);
    if "headGroupSpec" in cluster.entries {
      RepKid(cluster, s, "headGroupSpec");
      assert Tree(s).fields["headGroupSpec" := Tree(s.kids["headGroupSpec"])] == Tree(s).fields;
      if cluster.entries["headGroupSpec"].Map? {
        ghost var c;
        ok, c := ProcessGroup(cluster.entries["headGroupSpec"].ref, -1, "head", lookup, s.kids["headGroupSpec"]);
        ReassembleMap(cluster, s, "headGroupSpec", c);
        s' := s.(kids := s.kids["headGroupSpec" := c]);
      }
    }
  }

  method ProcessWorkerGroups(cluster: Dict, lookup: Lookup, ghost s: Shape) returns (ok: bool, ghost s': Shape)
    requires Rep(cluster, s)
    modifies Refs(s)
    ensures Rep(cluster, s')
    ensures forall x :: x in Refs(s') ==> x in Refs(s) || fresh(x)
    ensures WorkersResult(Tree(s).fields, lookup) == if ok then Some(Tree(s').fields) else None
  {
    hide Rep, RepList, Owned, Holds, Tree, Refs, GroupResult;
    ok, s' := true, s;
    RepRoot(cluster, s);
    if "workerGroupSpecs" in cluster.entries {
      RepKid(cluster, s, "workerGroupSpecs");
      if cluster.entries["workerGroupSpecs"].List? {
        ghost var items, items' := s.kids["workerGroupSpecs"].items, [];
        assert s.kids["workerGroupSpecs"] == ListOf(items);
        ok, items' := ProcessWorkers(cluster.entries["workerGroupSpecs"].elems, lookup, items);
        ReassembleList(cluster, s, "workerGroupSpecs", items');
        s' := s.(kids := s.kids["workerGroupSpecs" := ListOf(items')]);
        TreeOfList(items);
        TreeOfList(items');
        ghost var ws := Tree(ListOf(items)).elems;
        if ok {
          assert Workers(ws, lookup) == Tree(ListOf(items')).elems;
        } else {
          ghost var i :| 0 <= i < |items| && GroupResult(Tree(items[i]), i, "worker", lookup) == None;
          assert GroupResult(ws[i], i, "worker", lookup).None?;
        }
      }
    }
  }

  method ProcessCluster(cluster: Dict, lookup: Lookup, ghost s: Shape) returns (ok: bool, ghost s': Shape)
    requires Rep(cluster, s)
    modifies Refs(s)
    ensures Rep(cluster, s')
    ensures forall x :: x in Refs(s') ==> x in Refs(s) || fresh(x)
    ensures ClusterResult(Tree(s).fields, lookup) == if ok then Some(Tree(s').fields) else None
  {
    hide Rep, Owned, Holds, Tree, Refs, HeadResult, WorkersResult;
    ok, s' := ProcessHead(cluster, lookup, s);
    if ok {
      ok, s' := ProcessWorkerGroups(cluster, lookup, s');
    }
  }

  method ProcessUnder(spec: Dict, key: string, lookup: Lookup, ghost s: Shape) returns (ok: bool, ghost s': Shape)
    requires Rep(spec, s) && key in spec.entries && spec.entries[key].Map?
    modifies Refs(s)
    ensures Rep(spec, s')
    ensures forall x :: x in Refs(s') ==> x in Refs(s) || fresh(x)
    ensures Tree(s).Obj? && key in Tree(s).fields && Tree(s).fields[key].Obj?
    ensures var r := ClusterResult(Tree(s).fields[key].fields, lookup);
            if ok then r.Some? && Tree(s') == Obj(Tree(s).fields[key := Obj(r.value)]) else r.None?
  {
    hide Rep, Owned, Holds, Tree, Refs, ClusterResult;
    RepRoot(spec, s);
    RepKid(spec, s, key);
    ghost var c;
    ok, c := ProcessCluster(spec.entries[key].ref, lookup, s.kids[key]);
    RepRoot(spec.entries[key].ref, c);
    ReassembleMap(spec, s, key, c);
    s' := s.(kids := s.kids[key := c]);
  }

  method ProcessSpec(spec: Dict, lookup: Lookup, ghost s: Shape) returns (ok: bool, ghost s': Shape)
    requires Rep(spec, s)
    modifies Refs(s)
    ensures Rep(spec, s')
    ensures forall x :: x in Refs(s') ==> x in Refs(s) || fresh(x)
    ensures SpecResult(Tree(s).fields, lookup) == if ok then Some(Tree(s').fields) else None
  {
    hide Rep, Owned, Holds, Tree, Refs, ClusterResult;
    RepRoot(spec, s);
    if "rayClusterSpec" in spec.entries {
      RepKid(spec, s, "rayClusterSpec");
    }
    if "rayClusterConfig" in spec.entries {
      RepKid(spec, s, "rayClusterConfig");
    }
    if "rayClusterSpec" in spec.entries && spec.entries["rayClusterSpec"].Map? {
      ok, s' := ProcessUnder(spec, "rayClusterSpec", lookup, s);
    } else if "rayClusterConfig" in spec.entries && spec.entries["rayClusterConfig"].Map? {
      ok, s' := ProcessUnder(spec, "rayClusterConfig", lookup, s);
    } else {
      ok, s' := ProcessCluster(spec, lookup, s);
    }
  }

  /** The decoded request is written to only if its outcome depends on the store. */
  predicate LeavesRequestAlone(e: Effect) {
    e == WriteError(400) || (e.CallNext? && e.body.Original?)
  }

  /** The handler has exactly one effect, the one the tree functions say; a request it rejects as
      unreadable or forwards with its original bytes keeps every mapping as it was. */
  method Handle(x: Exchange, body: Option<Bytes>, request: Request, lookup: Lookup, encodes: Json -> bool,
                ghost s: Shape)
    requires Tree(s).Obj? && (request.Root? ==> Rep(request.root, s))
    modifies x, Refs(s)
    ensures x.effects == old(x.effects) + [Outcome(body, DecodedOf(request, s), lookup, encodes)]
    ensures Answers(body, DecodedOf(request, s), lookup, encodes, x.effects[|old(x.effects)|])
    ensures LeavesRequestAlone(Outcome(body, DecodedOf(request, s), lookup, encodes)) ==>
              old(allocated(Refs(s))) && forall d :: d in Refs(s) ==> unchanged(d)
  {
    hide Rep, Owned, Holds, Tree, Refs, SpecResult, Answers;
    RequestAllOrNothing(body, DecodedOf(request, s), lookup, encodes);
    if body.None? || request.Malformed? {
      x.Do(WriteError(400));
      return;
    }
    if request.NilMap? {
      x.Do(CallNext(Original(body.value)));
      return;
    }
    var d := request.root;
    RepRoot(d, s);
    if "spec" in d.entries {
      RepKid(d, s, "spec");
    }
    if !("spec" in d.entries && d.entries["spec"].Map?) {
      x.Do(CallNext(Original(body.value)));
      return;
    }
    var ok;
    ghost var c;
    ok, c := ProcessSpec(d.entries["spec"].ref, lookup, s.kids["spec"]);
    RepRoot(d.entries["spec"].ref, c);
    ReassembleMap(d, s, "spec", c);
    ghost var s' := s.(kids := s.kids["spec" := c]);
    if !ok {
      x.Do(WriteError(422));
      return;
    }
    RepRoot(d, s');
    var rewritten := Marshal(Map(d), s');
    if encodes(rewritten) {
      x.Do(CallNext(Encoded(rewritten)));
    } else {
      x.Do(WriteError(500));
    }
  }
}
