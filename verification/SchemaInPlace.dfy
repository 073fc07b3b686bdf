/**
  `additional_properties` of scripts/openapi2jsonschema.py as it runs: in place, on mappings that
  may be shared, as YAML anchors share them.
 */
module SchemaInPlace {
  import opened JsonTree
  import opened MutableTree
  import opened SchemaPasses

  // ----- which mappings the pass comes to -----

  /** Mappings reached through mapping values; the root only if it is not skipped. */
  ghost function Reached(s: Shape, skip: bool): set<Dict>
    decreases s
  {
    match s
    case Node(r, kids) => (if skip then {} else {r}) + set k, x | k in kids && x in Reached(kids[k], false) :: x
    case _ => {}
  }

  function CloseVals(e: map<string, Val>): map<string, Val> {
    if PROPERTIES in e && ADDITIONAL !in e then e[ADDITIONAL := Scalar(Bool(false))] else e
  }

  /** The shape, but for mappings that may be closed already because they are shared. Lists are not looked into. */
  ghost predicate Loose(v: Val, s: Shape)
    reads Reached(s, false)
    decreases s
  {
    match s
    case Leaf(j) => v == Scalar(j)
    case ListOf(_) => v.List?
    case Node(r, kids) =>
      && v == Map(r)
      && kids.Keys <= r.entries.Keys <= kids.Keys + {ADDITIONAL}
      && (ADDITIONAL in r.entries && ADDITIONAL !in kids ==> r.entries[ADDITIONAL] == Scalar(Bool(false)))
      && forall k :: k in kids ==> Loose(r.entries[k], kids[k])
  }

  lemma ReachedOfKid(s: Shape, skip: bool, k: string)
    requires s.Node? && k in s.kids
    ensures Reached(s.kids[k], false) <= Reached(s, skip)
  {
  }

  lemma {:induction false} ReachedInRefs(s: Shape, skip: bool)
    ensures Reached(s, skip) <= Refs(s)
    decreases s
  {
    if !s.Node? {
    } else {
      forall k | k in s.kids
        ensures Reached(s.kids[k], false) <= Refs(s.kids[k])
      {
        ReachedInRefs(s.kids[k], false);
      }
    }
  }

  lemma {:induction false} HoldsIsLoose(v: Val, s: Shape)
    requires Holds(v, s)
    ensures Loose(v, s)
    decreases s
  {
    if !s.Node? {
    } else {
      forall k | k in s.kids
        ensures Loose(s.ref.entries[k], s.kids[k])
      {
        HoldsIsLoose(s.ref.entries[k], s.kids[k]);
      }
    }
  }

  /** Closing some of the mappings keeps the loose shape. */
  twostate lemma {:induction false} LooseStays(new v: Val, new s: Shape)
    requires old(allocated(v)) && old(allocated(s)) && old(allocated(Reached(s, false)))
    requires old(Loose(v, s))
    requires forall x :: x in Reached(s, false) ==>
               x.entries == old(x.entries) || x.entries == CloseVals(old(x.entries))
    ensures Loose(v, s)
    decreases s
  {
    if !s.Node? {
    } else {
      forall k | k in s.kids
        ensures Loose(s.ref.entries[k], s.kids[k])
      {
        ReachedOfKid(s, false, k);
        assert old(Loose(s.ref.entries[k], s.kids[k]));
        LooseStays(old(s.ref.entries[k]), s.kids[k]);
      }
    }
  }

  lemma CloseValsOnce(e: map<string, Val>)
    ensures CloseVals(CloseVals(e)) == CloseVals(e)
    ensures e.Keys <= CloseVals(e).Keys
  {
  }

  lemma LooseRoot(v: Val, s: Shape)
    requires Loose(v, s) && v.Map?
    ensures s.Node? && s.ref == v.ref
    ensures s.kids.Keys <= v.ref.entries.Keys
  {
  }

  /** What lies under a key is loose as well; `False` stands for the entry the pass put in itself. */
  ghost function KidAt(s: Shape, k: string): Shape
    requires s.Node?
  {
    if k in s.kids then s.kids[k] else Leaf(Bool(false))
  }

  lemma LooseKid(v: Val, s: Shape, skip: bool, k: string)
    requires Loose(v, s) && v.Map? && k in v.ref.entries
    ensures s.Node? && Loose(v.ref.entries[k], KidAt(s, k))
    ensures KidAt(s, k).Node? ==> KidAt(s, k) < s
    ensures Reached(KidAt(s, k), false) <= Reached(s, skip)
  {
  }

  lemma OnlyNodesReach(v: Val, s: Shape, skip: bool)
    requires Loose(v, s) && !v.Map?
    ensures Reached(s, skip) == {}
  {
  }

  lemma RootReached(s: Shape)
    requires s.Node?
    ensures s.ref in Reached(s, false)
    ensures Reached(s, true) <= Reached(s, false) <= Reached(s, true) + {s.ref}
  {
  }

  lemma ReachedIsCovered(s: Shape, skip: bool, done: set<Dict>)
    requires s.Node? && (skip || s.ref in done)
    requires forall k :: k in s.kids ==> Reached(s.kids[k], false) <= done
    ensures Reached(s, skip) <= done
  {
  }

  ghost function Entries(xs: set<Dict>): map<Dict, map<string, Val>>
    reads xs
  {
    map x | x in xs :: x.entries
  }

  /** Since `was`, all of the mappings have been closed ... */
  ghost predicate Closed(xs: set<Dict>, was: map<Dict, map<string, Val>>)
    reads xs
  {
    forall x :: x in xs ==> x in was && x.entries == CloseVals(was[x])
  }

  /** ... or at least nothing else happened to them. */
  ghost predicate Partly(xs: set<Dict>, was: map<Dict, map<string, Val>>)
    reads xs
  {
    forall x :: x in xs ==> x in was && (x.entries == was[x] || x.entries == CloseVals(was[x]))
  }

  lemma NothingDone(xs: set<Dict>)
    ensures Partly(xs, Entries(xs)) && Closed({}, Entries(xs))
  {
  }

  /** Closing more of the mappings, some of them not for the first time. */
  twostate lemma MoreClosed(new xs: set<Dict>, new done: set<Dict>, new part: set<Dict>,
                            was: map<Dict, map<string, Val>>)
    requires old(allocated(xs)) && old(allocated(done)) && old(allocated(part))
    requires old(Partly(xs, was)) && old(Closed(done, was)) && done <= xs && part <= xs
    requires forall x :: x in xs && x !in part ==> unchanged(x)
    requires Closed(part, old(Entries(part)))
    ensures Partly(xs, was) && Closed(done + part, was)
  {
    forall x | x in xs
      ensures x in was && (x.entries == was[x] || x.entries == CloseVals(was[x]))
      ensures x in done + part ==> x.entries == CloseVals(was[x])
    {
      CloseValsOnce(was[x]);
      if x in part {
        assert x.entries == CloseVals(old(x.entries));
      }
    }
  }

  twostate lemma LooseAfterClosing(new v: Val, new s: Shape, new part: set<Dict>)
    requires old(allocated(v)) && old(allocated(s)) && old(allocated(Reached(s, false))) && old(allocated(part))
    requires old(Loose(v, s))
    requires forall x :: x in Reached(s, false) && x !in part ==> unchanged(x)
    requires Closed(part, old(Entries(part)))
    ensures Loose(v, s)
    ensures v.Map? ==> old(v.ref.entries.Keys) <= v.ref.entries.Keys
  {
    LooseStays(v, s);
    if v.Map? {
      RootReached(s);
    }
  }

  // ----- the pass -----

  method CloseRoot(d: Dict, skip: bool)
    modifies if skip then {} else {d}
    ensures skip ==> Closed({}, old(Entries({})))
    ensures !skip ==> Closed({d}, old(Entries({d})))
  {
    if PROPERTIES in d.entries && !skip {
      if ADDITIONAL !in d.entries {
        d.entries := d.entries[ADDITIONAL := Scalar(Bool(false))];
      }
    }
  }

  /** Whatever the order of the keys, exactly the mappings it comes to are closed, each as if it had
      been closed once, and no other mapping changes. */
  method AdditionalProperties(data: Val, skip: bool, ghost s: Shape)
    requires Loose(data, s)
    modifies Reached(s, skip)
    ensures Closed(Reached(s, skip), old(Entries(Reached(s, skip))))
    decreases if s.Node? then 1 else 0, s
  {
    hide Loose, Reached, CloseVals, Closed, Partly;
    ghost var xs := Reached(s, skip);
    ghost var was := Entries(xs);
    if data.Map? {
      var d := data.ref;
      LooseRoot(data, s);
      RootReached(s);
      NothingDone(xs);
      CloseRoot(d, skip);
      ghost var done := if skip then {} else {d};
      LooseAfterClosing(data, s, done);
      LooseRoot(data, s);
      MoreClosed(xs, {}, done, was);
      assert {} + done == done;
      var todo := d.entries.Keys;
      while todo != {}
        invariant Loose(data, s) && todo <= d.entries.Keys
        invariant Partly(xs, was) && Closed(done, was)
        invariant done <= xs && (skip || d in done)
        invariant forall k :: k in s.kids && k !in todo ==> Reached(s.kids[k], false) <= done
        decreases |todo|
      {
        var k :| k in todo;
        LooseKid(data, s, skip, k);
        ghost var part := Reached(KidAt(s, k), false);
        label visiting:
        AdditionalProperties(d.entries[k], false, KidAt(s, k));
        LooseAfterClosing@visiting(data, s, part);
        LooseRoot(data, s);
        MoreClosed@visiting(xs, done, part, was);
        done := done + part;
        todo := todo - {k};
      }
      ReachedIsCovered(s, skip, done);
      assert xs == done;
    } else {
      OnlyNodesReach(data, s, skip);
      NothingDone(xs);
    }
  }

  // ----- the tree it leaves behind -----

  /** The shape once the mappings in `xs` are closed, wherever they occur. */
  ghost function ClosedShape(s: Shape, xs: set<Dict>): Shape {
    match s
    case Leaf(_) => s
    case ListOf(items) => ListOf(seq(|items|, i requires 0 <= i < |items| => ClosedShape(items[i], xs)))
    case Node(r, kids) =>
      var kids' := map k | k in kids :: ClosedShape(kids[k], xs);
      Node(r, if r in xs && IsOpen(s) then kids'[ADDITIONAL := Leaf(Bool(false))] else kids')
  }

  ghost predicate IsOpen(s: Shape) {
    s.Node? && PROPERTIES in s.kids && ADDITIONAL !in s.kids
  }

  /** Mappings left to close, wherever they occur ... */
  ghost function Open(s: Shape): set<Dict> {
    match s
    case Leaf(_) => {}
    case ListOf(items) => set i, x | 0 <= i < |items| && x in Open(items[i]) :: x
    case Node(r, kids) => (if IsOpen(s) then {r} else {}) + set k, x | k in kids && x in Open(kids[k]) :: x
  }

  /** ... and those of them that occur inside a list. */
  ghost function OpenInLists(s: Shape): set<Dict> {
    match s
    case Leaf(_) => {}
    case ListOf(_) => Open(s)
    case Node(_, kids) => set k, x | k in kids && x in OpenInLists(kids[k]) :: x
  }

  /** No object or array passes for a scalar. */
  ghost predicate ScalarLeaves(s: Shape) {
    match s
    case Leaf(j) => !j.Arr? && !j.Obj?
    case ListOf(items) => forall i :: 0 <= i < |items| ==> ScalarLeaves(items[i])
    case Node(_, kids) => forall k :: k in kids ==> ScalarLeaves(kids[k])
  }

  twostate lemma {:induction false} HoldsClosed(new v: Val, new s: Shape, new xs: set<Dict>)
    requires old(allocated(v)) && old(allocated(s)) && old(allocated(Refs(s)))
    requires old(Holds(v, s))
    requires forall x :: x in Refs(s) && x !in xs ==> unchanged(x)
    requires forall x :: x in Refs(s) && x in xs ==> x.entries == CloseVals(old(x.entries))
    ensures Holds(v, ClosedShape(s, xs))
    decreases s
  {
    match s
    case Leaf(_) =>
    case ListOf(items) =>
      forall i | 0 <= i < |items|
        ensures Holds(v.elems[i], ClosedShape(items[i], xs))
      {
        assert Refs(items[i]) <= Refs(s);
        HoldsClosed(v.elems[i], items[i], xs);
      }
    case Node(r, kids) =>
      forall k | k in kids
        ensures Holds(r.entries[k], ClosedShape(kids[k], xs))
      {
        RefsOfKid(s, k);
        assert old(Holds(r.entries[k], kids[k]));
        HoldsClosed(old(r.entries[k]), kids[k], xs);
      }
  }

  lemma {:induction false} ClosedShapeKeepsTreeExactlyWhen(s: Shape, xs: set<Dict>)
    ensures Tree(ClosedShape(s, xs)) == Tree(s) <==> Open(s) !! xs
  {
    match s
    case Leaf(_) =>
    case ListOf(items) =>
      forall i | 0 <= i < |items|
        ensures Tree(ClosedShape(items[i], xs)) == Tree(items[i]) <==> Open(items[i]) !! xs
      {
        ClosedShapeKeepsTreeExactlyWhen(items[i], xs);
      }
      SameListExactlyWhen(items, xs);
    case Node(_, kids) =>
      forall k | k in kids
        ensures Tree(ClosedShape(kids[k], xs)) == Tree(kids[k]) <==> Open(kids[k]) !! xs
      {
        ClosedShapeKeepsTreeExactlyWhen(kids[k], xs);
      }
      SameObjectExactlyWhen(s, xs);
  }

  lemma SameListExactlyWhen(items: seq<Shape>, xs: set<Dict>)
    requires forall i :: 0 <= i < |items| ==>
               (Tree(ClosedShape(items[i], xs)) == Tree(items[i]) <==> Open(items[i]) !! xs)
    ensures Tree(ClosedShape(ListOf(items), xs)) == Tree(ListOf(items)) <==> Open(ListOf(items)) !! xs
  {
    var t, t' := Tree(ListOf(items)), Tree(ClosedShape(ListOf(items), xs));
    assert |t.elems| == |t'.elems| == |items|;
    assert forall i :: 0 <= i < |items| ==>
             t.elems[i] == Tree(items[i]) && t'.elems[i] == Tree(ClosedShape(items[i], xs));
    if Open(ListOf(items)) !! xs {
      forall i | 0 <= i < |items|
        ensures Open(items[i]) !! xs
      {
        assert Open(items[i]) <= Open(ListOf(items));
      }
      assert t.elems == t'.elems;
    } else {
      var x :| x in Open(ListOf(items)) && x in xs;
      var i :| 0 <= i < |items| && x in Open(items[i]);
      assert t.elems[i] != t'.elems[i];
    }
  }

  lemma FieldsOfTree(s: Shape)
    requires s.Node?
    ensures Tree(s).Obj? && Tree(s).fields.Keys == s.kids.Keys
    ensures forall k :: k in s.kids ==> Tree(s).fields[k] == Tree(s.kids[k])
  {
  }

  /** The closed shape, field by field. */
  lemma FieldsOfClosedShape(s: Shape, xs: set<Dict>)
    requires s.Node?
    ensures Tree(ClosedShape(s, xs)).Obj?
    ensures Tree(ClosedShape(s, xs)).fields.Keys ==
            s.kids.Keys + (if s.ref in xs && IsOpen(s) then {ADDITIONAL} else {})
    ensures forall k :: k in s.kids ==> Tree(ClosedShape(s, xs)).fields[k] == Tree(ClosedShape(s.kids[k], xs))
    ensures s.ref in xs && IsOpen(s) ==> Tree(ClosedShape(s, xs)).fields[ADDITIONAL] == Bool(false)
  {
    FieldsOfTree(ClosedShape(s, xs));
  }

  lemma OpenAtNode(s: Shape, xs: set<Dict>)
    requires s.Node?
    ensures Open(s) !! xs <==>
            !(s.ref in xs && IsOpen(s)) && forall k :: k in s.kids ==> Open(s.kids[k]) !! xs
  {
    forall k | k in s.kids
      ensures Open(s.kids[k]) <= Open(s)
    {
    }
  }

  lemma SameObjectExactlyWhen(s: Shape, xs: set<Dict>)
    requires s.Node?
    requires forall k :: k in s.kids ==>
               (Tree(ClosedShape(s.kids[k], xs)) == Tree(s.kids[k]) <==> Open(s.kids[k]) !! xs)
    ensures Tree(ClosedShape(s, xs)) == Tree(s) <==> Open(s) !! xs
  {
    hide Tree, ClosedShape, Open;
    FieldsOfTree(s);
    FieldsOfClosedShape(s, xs);
    OpenAtNode(s, xs);
    if Open(s) !! xs {
      assert Tree(ClosedShape(s, xs)).fields == Tree(s).fields;
    }
  }

  // ----- against the pass on trees -----

  lemma OpenInListsAtNode(s: Shape, xs: set<Dict>)
    requires s.Node?
    ensures OpenInLists(s) !! xs <==> forall k :: k in s.kids ==> OpenInLists(s.kids[k]) !! xs
  {
    forall k | k in s.kids
      ensures OpenInLists(s.kids[k]) <= OpenInLists(s)
    {
    }
  }

  /** At a mapping the pass leaves what it should, root included, if it does so below. */
  lemma NodeClosesExactlyWhen(s: Shape, skip: bool, xs: set<Dict>)
    requires s.Node? && (s.ref in xs <==> !skip)
    requires forall k :: k in s.kids ==>
               (Tree(ClosedShape(s.kids[k], xs)) == Close(Tree(s.kids[k]), false) <==> OpenInLists(s.kids[k]) !! xs)
    ensures Tree(ClosedShape(s, xs)) == Close(Tree(s), skip) <==> OpenInLists(s) !! xs
  {
    hide Tree, ClosedShape, OpenInLists, Close;
    FieldsOfTree(s);
    FieldsOfClosedShape(s, xs);
    FieldsOfClose(Tree(s).fields, skip);
    OpenInListsAtNode(s, xs);
    var f, f' := Close(Tree(s), skip).fields, Tree(ClosedShape(s, xs)).fields;
    assert f.Keys == f'.Keys;
    if OpenInLists(s) !! xs {
      assert f == f';
    }
  }

  lemma {:induction false} BelowClosesExactlyWhen(s: Shape, xs: set<Dict>)
    requires ScalarLeaves(s) && Reached(s, false) <= xs
    ensures Tree(ClosedShape(s, xs)) == Close(Tree(s), false) <==> OpenInLists(s) !! xs
  {
    match s
    case Leaf(_) =>
    case ListOf(items) =>
      ClosedShapeKeepsTreeExactlyWhen(s, xs);
    case Node(_, kids) =>
      forall k | k in kids
        ensures Tree(ClosedShape(kids[k], xs)) == Close(Tree(kids[k]), false) <==> OpenInLists(kids[k]) !! xs
      {
        ReachedOfKid(s, false, k);
        BelowClosesExactlyWhen(kids[k], xs);
      }
      RootReached(s);
      NodeClosesExactlyWhen(s, false, xs);
  }

  // ----- no mapping lies below itself -----

  lemma {:induction false} OneShape(v: Val, s: Shape, t: Shape)
    requires Holds(v, s) && Holds(v, t)
    ensures s == t
    decreases s
  {
    match s
    case Leaf(_) =>
    case ListOf(items) =>
      forall i | 0 <= i < |items|
        ensures items[i] == t.items[i]
      {
        OneShape(v.elems[i], items[i], t.items[i]);
      }
    case Node(r, kids) =>
      forall k | k in kids
        ensures kids[k] == t.kids[k]
      {
        OneShape(r.entries[k], kids[k], t.kids[k]);
      }
      assert kids == t.kids;
  }

  lemma {:induction false} Occurrence(v: Val, s: Shape, skip: bool, x: Dict) returns (u: Shape)
    requires Holds(v, s) && x in Reached(s, skip)
    ensures u.Node? && u.ref == x && Refs(u) <= Refs(s) && Holds(Map(x), u)
    ensures u == s || u < s
    ensures skip ==> u < s
    decreases s
  {
    if !skip && x == s.ref {
      u := s;
    } else {
      var k :| k in s.kids && x in Reached(s.kids[k], false);
      RefsOfKid(s, k);
      u := Occurrence(s.ref.entries[k], s.kids[k], false, x);
    }
  }

  lemma RootIsNotBelowItself(v: Val, s: Shape)
    requires s.Node? && Holds(v, s)
    ensures s.ref !in Reached(s, true)
  {
    if s.ref in Reached(s, true) {
      var u := Occurrence(v, s, true, s.ref);
      OneShape(v, s, u);
    }
  }

  // ----- the whole structure -----

  /** The tree is the closed one exactly when no mapping still to be closed is reached both through
      mappings and inside a list. */
  lemma ClosesExactlyWhen(v: Val, s: Shape, skip: bool)
    requires Holds(v, s) && ScalarLeaves(s)
    ensures Tree(ClosedShape(s, Reached(s, skip))) == Close(Tree(s), skip) <==>
            OpenInLists(s) !! Reached(s, skip)
  {
    var xs := Reached(s, skip);
    match s
    case Leaf(_) =>
    case ListOf(_) =>
      ClosedShapeKeepsTreeExactlyWhen(s, xs);
    case Node(_, kids) =>
      forall k | k in kids
        ensures Tree(ClosedShape(kids[k], xs)) == Close(Tree(kids[k]), false) <==> OpenInLists(kids[k]) !! xs
      {
        ReachedOfKid(s, skip, k);
        BelowClosesExactlyWhen(kids[k], xs);
      }
      RootReached(s);
      RootIsNotBelowItself(v, s);
      NodeClosesExactlyWhen(s, skip, xs);
  }

  lemma {:induction false} OpenInListsInRefs(s: Shape)
    ensures Open(s) <= Refs(s) && OpenInLists(s) <= Refs(s)
  {
    match s
    case Leaf(_) =>
    case ListOf(items) =>
      forall i | 0 <= i < |items|
        ensures Open(items[i]) <= Refs(items[i])
      {
        OpenInListsInRefs(items[i]);
      }
    case Node(_, kids) =>
      forall k | k in kids
        ensures Open(kids[k]) <= Refs(kids[k]) && OpenInLists(kids[k]) <= Refs(kids[k])
      {
        OpenInListsInRefs(kids[k]);
      }
  }

  /** Without shared mappings there is none of that kind. */
  lemma {:induction false} UnsharedIsEnough(s: Shape, skip: bool)
    requires Owned(s)
    ensures ScalarLeaves(s) && OpenInLists(s) !! Reached(s, skip)
    decreases s
  {
    match s
    case Leaf(_) =>
    case ListOf(items) =>
      forall i | 0 <= i < |items|
        ensures ScalarLeaves(items[i])
      {
        UnsharedIsEnough(items[i], false);
      }
    case Node(_, kids) =>
      forall k | k in kids
        ensures ScalarLeaves(kids[k]) && OpenInLists(kids[k]) !! Reached(s, skip)
      {
        UnsharedIsEnough(kids[k], false);
        OpenInListsInRefs(kids[k]);
        forall l | l in kids
          ensures OpenInLists(kids[k]) !! Reached(kids[l], false)
        {
          ReachedInRefs(kids[l], false);
        }
      }
      OpenInListsAtNode(s, Reached(s, skip));
  }

  /** A mapping that is both the value of a key and an element of a list. */
  lemma SharedWithAListIsClosedThere(root: Dict, shared: Dict, table: Dict)
    requires root.entries == map["a" := Map(shared), "b" := List([Map(shared)])]
    requires shared.entries == map[PROPERTIES := Map(table)] && table.entries == map[]
    ensures Holds(Map(root), SharedWithAList(root, shared, table))
    ensures var s := SharedWithAList(root, shared, table);
            Tree(ClosedShape(s, Reached(s, false))) != Close(Tree(s), false)
  {
    var x := Node(shared, map[PROPERTIES := Node(table, map[])]);
    var s := SharedWithAList(root, shared, table);
    assert s.kids["a"] == x && s.kids["b"] == ListOf([x]);
    assert Holds(Map(shared), x);
    assert shared in Open(x) && shared in Reached(x, false);
    assert x == [x][0];
    assert shared in Open(ListOf([x]));
    assert shared in OpenInLists(s.kids["b"]);
    OpenInListsAtNode(s, {shared});
    ReachedOfKid(s, false, "a");
    assert ScalarLeaves(x) && ScalarLeaves(s.kids["b"]);
    ClosesExactlyWhen(Map(root), s, false);
  }

  ghost function SharedWithAList(root: Dict, shared: Dict, table: Dict): Shape {
    var x := Node(shared, map[PROPERTIES := Node(table, map[])]);
    Node(root, map["a" := x, "b" := ListOf([x])])
  }

  /** The pass on a decoded schema, as `write_schema_file` calls it. */
  method CloseInPlace(data: Val, skip: bool, ghost s: Shape) returns (ghost s': Shape)
    requires Holds(data, s) && ScalarLeaves(s)
    modifies Reached(s, skip)
    ensures s' == ClosedShape(s, Reached(s, skip)) && Holds(data, s')
    ensures Tree(s') == Close(Tree(s), skip) <==> OpenInLists(s) !! Reached(s, skip)
    ensures Owned(s) ==> Tree(s') == Close(Tree(s), skip)
  {
    hide ClosedShape, Tree, Open, OpenInLists, ScalarLeaves, Close, Owned, Reached, Holds, Loose;
    HoldsIsLoose(data, s);
    ReachedInRefs(s, skip);
    ClosesExactlyWhen(data, s, skip);
    if Owned(s) {
      UnsharedIsEnough(s, skip);
    }
    AdditionalProperties(data, skip, s);
    s' := ClosedShape(s, Reached(s, skip));
    HoldsClosed(data, s, Reached(s, skip));
  }
}
