/**
  JSON values as programs hold them: mappings are mutable objects shared by reference,
  lists and scalars are values. A Shape is a decorated tree, the JSON tree together with
  the identity of the mapping at each object node; `Holds` says that the heap looks like
  the shape, `Owned` that no mapping occurs in it twice.
 */
module MutableTree {
  import opened JsonTree

  class Dict {
    var entries: map<string, Val>

    constructor ()
      ensures entries == map[]
    {
      entries := map[];
    }
  }

  datatype Val = Scalar(value: Json) | List(elems: seq<Val>) | Map(ref: Dict)

  datatype Shape = Leaf(value: Json) | ListOf(items: seq<Shape>) | Node(ref: Dict, kids: map<string, Shape>)

  ghost function Refs(s: Shape): set<Dict> {
    match s
    case Leaf(_) => {}
    case ListOf(items) => set i, x | 0 <= i < |items| && x in Refs(items[i]) :: x
    case Node(r, kids) => {r} + set k, x | k in kids && x in Refs(kids[k]) :: x
  }

  ghost predicate Owned(s: Shape) {
    match s
    case Leaf(j) => !j.Arr? && !j.Obj?
    case ListOf(items) =>
      && (forall i :: 0 <= i < |items| ==> Owned(items[i]))
      && (forall i, j :: 0 <= i < j < |items| ==> Refs(items[i]) !! Refs(items[j]))
    case Node(r, kids) =>
      && (forall k :: k in kids ==> Owned(kids[k]) && r !in Refs(kids[k]))
      && (forall k, l :: k in kids && l in kids && k != l ==> Refs(kids[k]) !! Refs(kids[l]))
  }

  ghost predicate Holds(v: Val, s: Shape)
    reads Refs(s)
    decreases s
  {
    match s
    case Leaf(j) => v == Scalar(j)
    case ListOf(items) =>
      v.List? && |v.elems| == |items| && forall i :: 0 <= i < |items| ==> Holds(v.elems[i], items[i])
    case Node(r, kids) =>
      v == Map(r) && r.entries.Keys == kids.Keys && forall k :: k in kids ==> Holds(r.entries[k], kids[k])
  }

  ghost function Tree(s: Shape): Json {
    match s
    case Leaf(j) => j
    case ListOf(items) => Arr(seq(|items|, i requires 0 <= i < |items| => Tree(items[i])))
    case Node(_, kids) => Obj(map k | k in kids :: Tree(kids[k]))
  }

  /** `d` is the root of an alias-free tree. */
  ghost predicate Rep(d: Dict, s: Shape)
    reads Refs(s)
  {
    s.Node? && s.ref == d && Owned(s) && Holds(Map(d), s)
  }

  /** The kind of node and the scalar, if any, can be read off the value in hand. */
  lemma KindOfValue(v: Val, s: Shape)
    requires Holds(v, s) && Owned(s)
    ensures v.Map? <==> Tree(s).Obj?
    ensures v.List? <==> Tree(s).Arr?
    ensures v.Scalar? ==> v.value == Tree(s)
    ensures v.Map? <==> s.Node?
    ensures v.List? <==> s.ListOf?
  {
  }

  /** What a representation says at its root ... */
  lemma RepRoot(d: Dict, s: Shape)
    requires Rep(d, s)
    ensures s.Node? && s.ref == d && d in Refs(s)
    ensures Owned(s) && Holds(Map(d), s)
    ensures d.entries.Keys == s.kids.Keys
    ensures Tree(s).Obj? && Tree(s).fields.Keys == s.kids.Keys
  {
  }

  /** ... and at a kid. */
  lemma RepKid(d: Dict, s: Shape, k: string)
    requires Rep(d, s) && k in s.kids
    ensures k in d.entries && Holds(d.entries[k], s.kids[k]) && Owned(s.kids[k])
    ensures Refs(s.kids[k]) <= Refs(s) && d in Refs(s) && d !in Refs(s.kids[k])
    ensures d.entries[k].Map? <==> s.kids[k].Node?
    ensures d.entries[k].List? <==> s.kids[k].ListOf?
    ensures d.entries[k].Map? ==> Rep(d.entries[k].ref, s.kids[k]) && s.kids[k].ref in Refs(s.kids[k])
    ensures d.entries[k].List? ==> RepList(d.entries[k].elems, s.kids[k].items)
    ensures Tree(s).Obj? && k in Tree(s).fields && Tree(s).fields[k] == Tree(s.kids[k])
    ensures Tree(s.kids[k]).Obj? <==> s.kids[k].Node?
    ensures Tree(s.kids[k]).Arr? <==> s.kids[k].ListOf?
    ensures d.entries[k].Scalar? ==> Tree(s.kids[k]) == d.entries[k].value
  {
    KindOfValue(d.entries[k], s.kids[k]);
  }

  lemma KidsAreDisjoint(d: Dict, s: Shape, k: string, l: string)
    requires Rep(d, s) && k in s.kids && l in s.kids && k != l
    ensures Refs(s.kids[k]) !! Refs(s.kids[l])
  {
  }

  lemma RefsOfKid(s: Shape, k: string)
    requires s.Node? && k in s.kids
    ensures Refs(s.kids[k]) <= Refs(s)
  {
  }

  lemma TreeWithKid(s: Shape, k: string, c: Shape)
    requires s.Node?
    ensures Tree(s.(kids := s.kids[k := c])) == Obj(Tree(s).fields[k := Tree(c)])
  {
    assert Tree(s.(kids := s.kids[k := c])).fields == Tree(s).fields[k := Tree(c)];
  }

  /** A kid may be put in if what it brings along is new to the tree. */
  lemma OwnedWithKid(s: Shape, k: string, c: Shape)
    requires s.Node? && Owned(s) && Owned(c)
    requires forall x :: x in Refs(c) && x in Refs(s) ==> k in s.kids && x in Refs(s.kids[k])
    ensures Owned(s.(kids := s.kids[k := c]))
    ensures Refs(s.(kids := s.kids[k := c])) <= Refs(s) + Refs(c)
  {
    var s' := s.(kids := s.kids[k := c]);
    forall j | j in s'.kids
      ensures Owned(s'.kids[j]) && s'.ref !in Refs(s'.kids[j])
    {
    }
    forall j, l | j in s'.kids && l in s'.kids && j != l
      ensures Refs(s'.kids[j]) !! Refs(s'.kids[l])
    {
      if j == k {
        RefsOfKid(s, l);
      } else if l == k {
        RefsOfKid(s, j);
      }
    }
  }

  /** A kid none of whose mappings changed holds as before. */
  twostate lemma KidStays(d: Dict, new s: Shape, new j: string)
    requires old(allocated(s)) && old(allocated(Refs(s)))
    requires old(Rep(d, s)) && j in s.kids
    ensures j in old(d.entries) && s.kids.Keys == old(d.entries.Keys)
    ensures (forall x :: x in Refs(s.kids[j]) ==> x in Refs(s) && x != d && unchanged(x)) ==>
              Holds(old(d.entries[j]), s.kids[j])
  {
    assert old(Holds(d.entries[j], s.kids[j]));
  }

  lemma RepFromKids(d: Dict, s: Shape)
    requires s.Node? && s.ref == d && Owned(s) && d.entries.Keys == s.kids.Keys
    requires forall k :: k in s.kids ==> Holds(d.entries[k], s.kids[k])
    ensures Rep(d, s)
  {
  }

  lemma OwnedKids(s: Shape, j: string, k: string)
    requires s.Node? && Owned(s) && j in s.kids
    ensures Refs(s.kids[j]) <= Refs(s) && s.ref !in Refs(s.kids[j])
    ensures j != k && k in s.kids ==> Refs(s.kids[j]) !! Refs(s.kids[k])
  {
  }

  /** After a change confined to one kid (and to `d[k]`), the tree at `d` is the old one with
      the new kid. */
  twostate lemma Reassemble(d: Dict, new s: Shape, new k: string, new c: Shape)
    requires old(allocated(s)) && old(allocated(Refs(s)))
    requires old(Rep(d, s))
    requires d.entries.Keys == old(d.entries.Keys) + {k}
    requires forall j :: j in old(d.entries) && j != k ==> d.entries[j] == old(d.entries[j])
    requires Owned(c) && Holds(d.entries[k], c)
    requires forall x :: x in Refs(s) && x != d && !(k in s.kids && x in Refs(s.kids[k])) ==> unchanged(x)
    requires forall x :: x in Refs(c) && x in Refs(s) ==> k in s.kids && x in Refs(s.kids[k])
    ensures Rep(d, s.(kids := s.kids[k := c]))
    ensures Refs(s.(kids := s.kids[k := c])) <= Refs(s) + Refs(c)
    ensures Tree(s.(kids := s.kids[k := c])) == Obj(Tree(s).fields[k := Tree(c)])
  {
    hide Owned, Holds, Tree, Refs;
    OwnedWithKid(s, k, c);
    TreeWithKid(s, k, c);
    var s' := s.(kids := s.kids[k := c]);
    RootKeys(d, s);
    forall j | j in s'.kids
      ensures Holds(d.entries[j], s'.kids[j])
    {
      if j != k {
        KidStays(d, s, j);
        OwnedKids(s, j, k);
      }
    }
    RepFromKids(d, s');
  }

  twostate lemma RootKeys(d: Dict, new s: Shape)
    requires old(allocated(s)) && old(allocated(Refs(s)))
    requires old(Rep(d, s))
    ensures s.kids.Keys == old(d.entries.Keys)
  {
  }

  /** The common case: a mapping below `d` was worked on, in place, and grew by new mappings only. */
  twostate lemma ReassembleMap(d: Dict, new s: Shape, new k: string, new c: Shape)
    requires old(allocated(s)) && old(allocated(Refs(s)))
    requires old(Rep(d, s)) && k in s.kids && s.kids[k].Node? && Refs(s.kids[k]) <= Refs(s) && unchanged(d)
    requires Rep(s.kids[k].ref, c)
    requires forall x :: x in Refs(s) && x !in Refs(s.kids[k]) ==> unchanged(x)
    requires forall x :: x in Refs(c) ==> x in Refs(s.kids[k]) || fresh(x)
    ensures Rep(d, s.(kids := s.kids[k := c]))
    ensures forall x :: x in Refs(s.(kids := s.kids[k := c])) ==> x in Refs(s) || fresh(x)
    ensures Tree(s.(kids := s.kids[k := c])) == Obj(Tree(s).fields[k := Tree(c)])
  {
    assert old(Holds(d.entries[k], s.kids[k]));
    assert d.entries[k] == Map(s.kids[k].ref);
    hide Owned, Holds, Tree, Refs;
    Reassemble(d, s, k, c);
  }

  lemma OwnedWithTwoKids(s: Shape, k: string, c: Shape, l: string, e: Shape)
    requires s.Node? && Owned(s) && Owned(c) && Owned(e) && k != l && k in s.kids && l in s.kids
    requires Refs(c) <= Refs(s.kids[k]) && Refs(e) <= Refs(s.kids[l])
    ensures Owned(s.(kids := s.kids[k := c][l := e]))
    ensures Refs(s.(kids := s.kids[k := c][l := e])) <= Refs(s)
    ensures Tree(s.(kids := s.kids[k := c][l := e])) == Obj(Tree(s).fields[k := Tree(c)][l := Tree(e)])
  {
    RefsOfKid(s, k);
    RefsOfKid(s, l);
    var mid := s.(kids := s.kids[k := c]);
    OwnedWithKid(s, k, c);
    OwnedWithKid(mid, l, e);
    TreeWithKid(s, k, c);
    TreeWithKid(mid, l, e);
  }

  /** The same for a change confined to two kids that gain no mapping. */
  twostate lemma ReassembleTwo(d: Dict, new s: Shape, new k: string, new c: Shape, new l: string, new e: Shape)
    requires old(allocated(s)) && old(allocated(Refs(s)))
    requires old(Rep(d, s)) && k != l && k in s.kids && l in s.kids
    requires d.entries == old(d.entries)
    requires Owned(c) && Holds(d.entries[k], c) && Refs(c) <= Refs(s.kids[k])
    requires Owned(e) && Holds(d.entries[l], e) && Refs(e) <= Refs(s.kids[l])
    requires forall x :: x in Refs(s) && x != d && x !in Refs(s.kids[k]) && x !in Refs(s.kids[l]) ==> unchanged(x)
    ensures Rep(d, s.(kids := s.kids[k := c][l := e]))
    ensures Refs(s.(kids := s.kids[k := c][l := e])) <= Refs(s)
    ensures Tree(s.(kids := s.kids[k := c][l := e])) == Obj(Tree(s).fields[k := Tree(c)][l := Tree(e)])
  {
    hide Owned, Holds, Tree, Refs;
    OwnedWithTwoKids(s, k, c, l, e);
    var s' := s.(kids := s.kids[k := c][l := e]);
    RootKeys(d, s);
    forall j | j in s'.kids
      ensures Holds(d.entries[j], s'.kids[j])
    {
      if j != k && j != l {
        KidStays(d, s, j);
        OwnedKids(s, j, k);
        OwnedKids(s, j, l);
      }
    }
    RepFromKids(d, s');
  }

  // ----- lists of mappings -----

  ghost predicate RepList(elems: seq<Val>, items: seq<Shape>)
    reads Refs(ListOf(items))
  {
    Owned(ListOf(items)) && Holds(List(elems), ListOf(items))
  }

  lemma TreeOfList(items: seq<Shape>)
    ensures Tree(ListOf(items)).Arr? && |Tree(ListOf(items)).elems| == |items|
    ensures forall i :: 0 <= i < |items| ==> Tree(ListOf(items)).elems[i] == Tree(items[i])
  {
  }

  lemma LengthOfList(elems: seq<Val>, items: seq<Shape>)
    requires RepList(elems, items)
    ensures |elems| == |items|
  {
  }

  lemma RepElem(elems: seq<Val>, items: seq<Shape>, i: nat)
    requires RepList(elems, items) && i < |items|
    ensures |elems| == |items| && Refs(items[i]) <= Refs(ListOf(items))
    ensures elems[i].Map? <==> items[i].Node?
    ensures elems[i].Map? ==> Rep(elems[i].ref, items[i]) && items[i].ref == elems[i].ref
    ensures items[i].Node? <==> Tree(items[i]).Obj?
  {
    KindOfValue(elems[i], items[i]);
  }

  lemma RepListAppend(elems: seq<Val>, items: seq<Shape>, d: Dict, c: Shape)
    requires RepList(elems, items) && Rep(d, c) && Refs(c) !! Refs(ListOf(items))
    ensures RepList(elems + [Map(d)], items + [c])
    ensures Refs(ListOf(items + [c])) <= Refs(ListOf(items)) + Refs(c)
  {
    var items' := items + [c];
    forall j, l | 0 <= j < l < |items'|
      ensures Refs(items'[j]) !! Refs(items'[l])
    {
      if l == |items| {
        assert Refs(items[j]) <= Refs(ListOf(items));
      }
    }
  }

  lemma OwnedWithElem(items: seq<Shape>, i: nat, c: Shape)
    requires Owned(ListOf(items)) && i < |items| && Owned(c)
    requires forall x :: x in Refs(c) && x in Refs(ListOf(items)) ==> x in Refs(items[i])
    ensures Owned(ListOf(items[i := c]))
    ensures Refs(ListOf(items[i := c])) <= Refs(ListOf(items)) + Refs(c)
  {
    var items' := items[i := c];
    forall j, l | 0 <= j < l < |items'|
      ensures Refs(items'[j]) !! Refs(items'[l])
    {
      assert Refs(items[j]) <= Refs(ListOf(items)) && Refs(items[l]) <= Refs(ListOf(items));
    }
  }

  twostate lemma ReassembleElem(new elems: seq<Val>, new items: seq<Shape>, new i: nat, new c: Shape)
    requires old(allocated(elems)) && old(allocated(items)) && old(allocated(Refs(ListOf(items))))
    requires old(RepList(elems, items)) && i < |items| && items[i].Node? && Rep(items[i].ref, c)
    requires forall x :: x in Refs(ListOf(items)) && x !in Refs(items[i]) ==> unchanged(x)
    requires forall x :: x in Refs(c) ==> x in Refs(items[i]) || fresh(x)
    ensures RepList(elems, items[i := c])
    ensures forall x :: x in Refs(ListOf(items[i := c])) ==> x in Refs(ListOf(items)) || fresh(x)
  {
    OwnedWithElem(items, i, c);
    assert old(Holds(elems[i], items[i]));
    forall j | 0 <= j < |items|
      ensures Holds(elems[j], items[i := c][j])
    {
      if j != i {
        assert Refs(items[j]) <= Refs(ListOf(items));
        assert old(Holds(elems[j], items[j]));
      }
    }
  }

  /** A list of mappings below `d` was worked on, in place, element by element. */
  twostate lemma ReassembleList(d: Dict, new s: Shape, new k: string, new items': seq<Shape>)
    requires old(allocated(s)) && old(allocated(Refs(s)))
    requires old(Rep(d, s)) && k in s.kids && s.kids[k].ListOf? && Refs(s.kids[k]) <= Refs(s) && unchanged(d)
    requires k in d.entries && d.entries[k].List? && RepList(d.entries[k].elems, items')
    requires forall x :: x in Refs(s) && x !in Refs(s.kids[k]) ==> unchanged(x)
    requires forall x :: x in Refs(ListOf(items')) ==> x in Refs(s.kids[k]) || fresh(x)
    ensures Rep(d, s.(kids := s.kids[k := ListOf(items')]))
    ensures forall x :: x in Refs(s.(kids := s.kids[k := ListOf(items')])) ==> x in Refs(s) || fresh(x)
    ensures Tree(s.(kids := s.kids[k := ListOf(items')])) == Obj(Tree(s).fields[k := Tree(ListOf(items'))])
  {
    hide Owned, Holds, Tree, Refs;
    Reassemble(d, s, k, ListOf(items'));
  }

  // ----- mappings filled with scalars -----

  function Scalars(w: map<string, Json>): map<string, Val> {
    map k | k in w :: Scalar(w[k])
  }

  ghost function Leaves(w: map<string, Json>): map<string, Shape> {
    map k | k in w :: Leaf(w[k])
  }

  predicate ScalarValued(w: map<string, Json>) {
    forall k :: k in w ==> !w[k].Arr? && !w[k].Obj?
  }

  ghost function Filled(s: Shape, w: map<string, Json>): Shape
    requires s.Node?
  {
    s.(kids := s.kids + Leaves(w))
  }

  lemma OwnedWhenFilled(s: Shape, w: map<string, Json>)
    requires s.Node? && Owned(s) && ScalarValued(w)
    ensures Owned(Filled(s, w)) && Refs(Filled(s, w)) <= Refs(s)
    ensures Tree(Filled(s, w)) == Obj(Tree(s).fields + w)
  {
    FilledTree(s, w);
    hide Tree;
    var s' := Filled(s, w);
    forall k | k in s'.kids
      ensures if k in w then s'.kids[k] == Leaf(w[k]) else s'.kids[k] == s.kids[k]
    {
    }
  }

  lemma FilledTree(s: Shape, w: map<string, Json>)
    requires s.Node?
    ensures Tree(Filled(s, w)) == Obj(Tree(s).fields + w)
  {
    assert Tree(Filled(s, w)).fields == Tree(s).fields + w;
  }

  lemma LeafHolds(j: Json)
    ensures Holds(Scalar(j), Leaf(j)) && Refs(Leaf(j)) == {} && Tree(Leaf(j)) == j
    ensures Owned(Leaf(j)) <==> !j.Arr? && !j.Obj?
  {
  }

  /** Scalars were written into the mapping `d` and nothing else changed in its tree. */
  twostate lemma Fill(d: Dict, new s: Shape, new w: map<string, Json>)
    requires old(allocated(s)) && old(allocated(Refs(s)))
    requires old(Rep(d, s)) && ScalarValued(w)
    requires d.entries == old(d.entries) + Scalars(w)
    requires forall x :: x in Refs(s) && x != d ==> unchanged(x)
    ensures Rep(d, Filled(s, w))
  {
    hide Owned, Holds, Tree, Refs;
    OwnedWhenFilled(s, w);
    var s' := Filled(s, w);
    RootKeys(d, s);
    forall k | k in s'.kids
      ensures Holds(d.entries[k], s'.kids[k])
    {
      if k in w {
        LeafHolds(w[k]);
      } else {
        KidStays(d, s, k);
        OwnedKids(s, k, k);
      }
    }
    RepFromKids(d, s');
  }

  lemma FlatMapping(d: Dict, w: map<string, Json>)
    requires d.entries == Scalars(w) && ScalarValued(w)
    ensures Rep(d, Node(d, Leaves(w))) && Refs(Node(d, Leaves(w))) == {d} && Tree(Node(d, Leaves(w))) == Obj(w)
  {
    var s := Node(d, Leaves(w));
    assert forall k :: k in w ==> s.kids[k] == Leaf(w[k]) && Refs(s.kids[k]) == {};
    assert Tree(s).fields == w;
  }

  /** An empty mapping put under a key, in place of whatever was there. */
  method PutNew(d: Dict, key: string, ghost s: Shape) returns (child: Dict, ghost s': Shape)
    requires Rep(d, s)
    modifies d
    ensures fresh(child) && s' == s.(kids := s.kids[key := Node(child, map[])])
    ensures Rep(d, s') && Rep(child, s'.kids[key])
    ensures Refs(s') <= Refs(s) + {child}
    ensures Tree(s').fields == Tree(s).fields[key := Obj(map[])]
  {
    child := new Dict();
    d.entries := d.entries[key := Map(child)];
    ghost var c := Node(child, map[]);
    assert Refs(c) == {child};
    assert Holds(Map(child), c);
    assert Tree(c) == Obj(map[]);
    s' := s.(kids := s.kids[key := c]);
    Reassemble(d, s, key, c);
  }

  /** The mapping under a key, made on the spot if there is none. */
  method GetOrCreate(d: Dict, key: string, ghost s: Shape) returns (child: Dict, ghost s': Shape)
    requires Rep(d, s)
    modifies d
    ensures Rep(d, s') && key in s'.kids && Rep(child, s'.kids[key])
    ensures s'.kids == s.kids[key := s'.kids[key]]
    ensures forall x :: x in Refs(s') ==> x in Refs(s) || fresh(x)
    ensures Tree(s').fields == Tree(s).fields[key := Obj(SubMap(Tree(s).fields, key))]
  {
    hide Owned, Holds, Tree, Refs, Rep;
    RepRoot(d, s);
    if key in s.kids {
      RepKid(d, s, key);
    }
    if key in d.entries && d.entries[key].Map? {
      child := d.entries[key].ref;
      s' := s;
      assert Tree(s).fields == Tree(s).fields[key := Obj(SubMap(Tree(s).fields, key))];
    } else {
      child, s' := PutNew(d, key, s);
    }
  }

  /** Marshalling reads the tree back. */
  function Marshal(v: Val, ghost s: Shape): (j: Json)
    requires Holds(v, s)
    reads Refs(s)
    ensures j == Tree(s)
    decreases s
  {
    match v
    case Scalar(j) => j
    case List(es) =>
      var js := seq(|es|, i requires 0 <= i < |es| && |s.items| == |es| && Holds(es[i], s.items[i]) reads Refs(s) =>
        Marshal(es[i], s.items[i]));
      assert js == Tree(s).elems;
      Arr(js)
    case Map(d) =>
      var fields := map k | k in d.entries :: Marshal(d.entries[k], s.kids[k]);
      assert fields == Tree(s).fields;
      Obj(fields)
  }
}
