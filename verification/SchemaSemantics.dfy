/**
  What the passes of scripts/openapi2jsonschema.py do to the set of accepted instances.
  The keywords follow JSON Schema Core, draft 2020-12: section 10.2.1 (allOf, anyOf,
  oneOf, not), section 10.3.1.2 (items), section 10.3.2.1 (properties) and section
  10.3.2.3 (additionalProperties). Other keywords are annotations.
 */
module SchemaSemantics {
  import opened JsonTree
  import opened SchemaPasses

  /** In the IntOrString dialect a mapping stored under a key with format int-or-string
      stands for "a string or an integer"; in the Plain dialect format is an annotation. */
  datatype Dialect = Plain | IntOrString

  /** A schema at a position: `stored` tells whether it is stored under a mapping key
      (as opposed to being the root or a direct element of a list). */
  datatype Position = Position(dialect: Dialect, stored: bool) {
    function Under(): Position { this.(stored := true) }
    function InList(): Position { this.(stored := false) }
    predicate Reads(s: Json) {
      dialect.IntOrString? && stored && s.Obj? && "format" in s.fields && s.fields["format"] == Str("int-or-string")
    }
  }

  function Props(f: map<string, Json>): map<string, Json> {
    SubMap(f, PROPERTIES)
  }

  function Branches(f: map<string, Json>, keyword: string): seq<Json> {
    if keyword in f && f[keyword].Arr? then f[keyword].elems else []
  }

  predicate HasType(name: string, i: Json) {
    match name
    case "null" => i.Null?
    case "boolean" => i.Bool?
    case "number" => i.Num?
    case "integer" => IsInteger(i)
    case "string" => i.Str?
    case "array" => i.Arr?
    case "object" => i.Obj?
    case _ => false
  }

  predicate TypeHolds(f: map<string, Json>, i: Json) {
    "type" in f && f["type"].Str? ==> HasType(f["type"].s, i)
  }

  predicate RequiredHolds(f: map<string, Json>, i: Json) {
    i.Obj? ==> forall r :: r in Branches(f, "required") && r.Str? ==> r.s in i.fields
  }

  ghost predicate Accepts(p: Position, s: Json, i: Json)
    decreases s, 1
  {
    match s
    case Bool(b) => b
    case Obj(f) =>
      if p.Reads(s) then i.Str? || IsInteger(i) else
      && TypeHolds(f, i)
      && RequiredHolds(f, i)
      && PropertiesHold(p, s, i)
      && AdditionalHold(p, s, i)
      && ItemsHold(p, s, i)
      && AllOf(Verdicts(p, s, i, "allOf"))
      && AnyOf(Verdicts(p, s, i, "anyOf"))
      && OneOf(Verdicts(p, s, i, "oneOf"))
      && NotHolds(p, s, i)
    case _ => true
  }

  ghost predicate PropertiesHold(p: Position, s: Json, i: Json)
    requires s.Obj?
    decreases s, 0
  {
    var props := Props(s.fields);
    i.Obj? ==> forall k :: k in props && k in i.fields ==> Accepts(p.Under(), props[k], i.fields[k])
  }

  ghost predicate AdditionalHold(p: Position, s: Json, i: Json)
    requires s.Obj?
    decreases s, 0
  {
    i.Obj? && ADDITIONAL in s.fields ==>
      forall k :: k in i.fields && k !in Props(s.fields) ==> Accepts(p.Under(), s.fields[ADDITIONAL], i.fields[k])
  }

  ghost predicate ItemsHold(p: Position, s: Json, i: Json)
    requires s.Obj?
    decreases s, 0
  {
    i.Arr? && "items" in s.fields ==>
      forall j :: 0 <= j < |i.elems| ==> Accepts(p.Under(), s.fields["items"], i.elems[j])
  }

  /** What each schema of an allOf, anyOf or oneOf list says about the instance. */
  ghost function Verdicts(p: Position, s: Json, i: Json, keyword: string): seq<bool>
    requires s.Obj?
    decreases s, 0
  {
    var branches := Branches(s.fields, keyword);
    seq(|branches|, j requires 0 <= j < |branches| => Accepts(p.InList(), branches[j], i))
  }

  ghost predicate AllOf(v: seq<bool>) {
    forall j :: 0 <= j < |v| ==> v[j]
  }

  ghost predicate AnyOf(v: seq<bool>) {
    v != [] ==> exists j :: 0 <= j < |v| && v[j]
  }

  ghost predicate OneOf(v: seq<bool>) {
    v != [] ==> exists j :: 0 <= j < |v| && v[j] && forall l :: 0 <= l < |v| && l != j ==> !v[l]
  }

  ghost predicate NotHolds(p: Position, s: Json, i: Json)
    requires s.Obj?
    decreases s, 0
  {
    "not" in s.fields ==> !Accepts(p.Under(), s.fields["not"], i)
  }

  // ----- the pass that closes objects -----

  /** A property named "properties" makes the pass take the table of properties for a schema
      and declare an impossible property "additionalProperties" in it. */
  predicate GainsPhantom(f: map<string, Json>) {
    "properties" in Props(f) && "additionalProperties" !in Props(f)
  }

  /** How the pass reads a schema: an object that it closes admits declared fields only, a table
      that gains the phantom admits no field of that name, and what is below is read alike, except
      in lists, where schemas mean what they say. */
  ghost predicate AcceptsClosed(p: Position, s: Json, i: Json, skip: bool)
    decreases s, 1
  {
    match s
    case Bool(b) => b
    case Obj(f) =>
      if p.Reads(s) then i.Str? || IsInteger(i) else
      && TypeHolds(f, i)
      && RequiredHolds(f, i)
      && (i.Obj? ==> forall k :: k in i.fields ==> FieldClosed(p, s, i, skip, k))
      && ItemsClosed(p, s, i)
      && AllOf(Verdicts(p, s, i, "allOf"))
      && AnyOf(Verdicts(p, s, i, "anyOf"))
      && OneOf(Verdicts(p, s, i, "oneOf"))
      && NotClosed(p, s, i)
    case _ => true
  }

  ghost predicate FieldClosed(p: Position, s: Json, i: Json, skip: bool, k: string)
    requires s.Obj? && i.Obj? && k in i.fields
    decreases s, 0
  {
    var f, props := s.fields, Props(s.fields);
    if GainsPhantom(f) && k == ADDITIONAL then false
    else if k in props then AcceptsClosed(p.Under(), props[k], i.fields[k], false)
    else if "properties" in f && !skip && "additionalProperties" !in f then false
    else ADDITIONAL in f ==> AcceptsClosed(p.Under(), f[ADDITIONAL], i.fields[k], false)
  }

  ghost predicate ItemsClosed(p: Position, s: Json, i: Json)
    requires s.Obj?
    decreases s, 0
  {
    i.Arr? && "items" in s.fields ==>
      forall j :: 0 <= j < |i.elems| ==> AcceptsClosed(p.Under(), s.fields["items"], i.elems[j], false)
  }

  ghost predicate NotClosed(p: Position, s: Json, i: Json)
    requires s.Obj?
    decreases s, 0
  {
    "not" in s.fields ==> !AcceptsClosed(p.Under(), s.fields["not"], i, false)
  }

  /** Beneath `not` nothing is left to close. Every schema without `not` qualifies, and what
      happens inside allOf, anyOf and oneOf lists is of no concern, as the pass skips lists. */
  predicate NothingToCloseUnderNot(s: Json)
    decreases s
  {
    s.Obj? ==>
      && ("not" in s.fields ==> Close(s.fields["not"], false) == s.fields["not"])
      && (forall k :: k in Props(s.fields) ==> NothingToCloseUnderNot(Props(s.fields)[k]))
      && (ADDITIONAL in s.fields ==> NothingToCloseUnderNot(s.fields[ADDITIONAL]))
      && ("items" in s.fields ==> NothingToCloseUnderNot(s.fields["items"]))
  }

  /** The instance runs into something the pass forbade: an undeclared field at a newly
      closed object, or a field named after the phantom property. */
  ghost predicate Lost(p: Position, s: Json, i: Json, skip: bool)
    decreases s
  {
    s.Obj? && !p.Reads(s) &&
    var f, props := s.fields, Props(s.fields);
    || (i.Obj? && NewlyClosed(f, skip) && !(i.fields.Keys <= props.Keys))
    || (i.Obj? && GainsPhantom(f) && ADDITIONAL in i.fields)
    || (i.Obj? && exists k :: k in props && k in i.fields && Lost(p.Under(), props[k], i.fields[k], false))
    || (i.Obj? && ADDITIONAL in f &&
        exists k :: k in i.fields && k !in props && Lost(p.Under(), f[ADDITIONAL], i.fields[k], false))
    || (i.Arr? && "items" in f && exists j :: 0 <= j < |i.elems| && Lost(p.Under(), f["items"], i.elems[j], false))
  }

  lemma CloseKeepsReads(p: Position, s: Json, skip: bool)
    requires s.Obj?
    ensures p.Reads(Close(s, skip)) == p.Reads(s)
  {
    FormatSurvivesClose(s.fields, skip);
  }

  lemma CloseKeepsKeyword(s: Json, skip: bool, keyword: string)
    requires s.Obj? && keyword != ADDITIONAL
    ensures keyword in Close(s, skip).fields <==> keyword in s.fields
    ensures keyword in s.fields ==> Close(s, skip).fields[keyword] == Close(s.fields[keyword], false)
    ensures Branches(Close(s, skip).fields, keyword) == Branches(s.fields, keyword)
  {
  }

  /** Everything but the object keywords, `items` and `not` reads the same before and after. */
  lemma CloseKeepsTheRest(p: Position, s: Json, i: Json, skip: bool)
    requires s.Obj?
    ensures TypeHolds(Close(s, skip).fields, i) == TypeHolds(s.fields, i)
    ensures RequiredHolds(Close(s, skip).fields, i) == RequiredHolds(s.fields, i)
    ensures forall keyword | keyword in ["allOf", "anyOf", "oneOf"] ::
              Verdicts(p, Close(s, skip), i, keyword) == Verdicts(p, s, i, keyword)
  {
    assert TypeHolds(Close(s, skip).fields, i) == TypeHolds(s.fields, i) by {
      CloseKeepsKeyword(s, skip, "type");
    }
    assert RequiredHolds(Close(s, skip).fields, i) == RequiredHolds(s.fields, i) by {
      CloseKeepsKeyword(s, skip, "required");
    }
    forall keyword | keyword in ["allOf", "anyOf", "oneOf"]
      ensures Verdicts(p, Close(s, skip), i, keyword) == Verdicts(p, s, i, keyword)
    {
      CloseKeepsKeyword(s, skip, keyword);
    }
  }

  /** The table of properties after the pass. */
  lemma CloseProps(s: Json, skip: bool)
    requires s.Obj?
    ensures var before, after := Props(s.fields), Props(Close(s, skip).fields);
            && after.Keys == before.Keys + (if GainsPhantom(s.fields) then {ADDITIONAL} else {})
            && (forall k :: k in before ==> after[k] == Close(before[k], false))
            && (GainsPhantom(s.fields) ==> after[ADDITIONAL] == Bool(false))
  {
    if PROPERTIES in s.fields {
      var table := s.fields[PROPERTIES];
      assert Close(s, skip).fields[PROPERTIES] == Close(table, false);
      if table.Obj? {
        var inner := map k | k in table.fields :: Close(table.fields[k], false);
        assert Close(table, false).fields == CloseEntries(inner, false);
        assert inner.Keys == table.fields.Keys;
      }
    }
  }

  lemma LostNeedsStructure(p: Position, s: Json, i: Json, skip: bool)
    ensures Lost(p, s, i, skip) ==> s.Obj? && !p.Reads(s) && (i.Obj? || i.Arr?)
  {
  }

  /** The object keywords and `items` concern one kind of instance each. */
  lemma OtherKinds(p: Position, s: Json, i: Json)
    requires s.Obj?
    ensures !i.Obj? ==> PropertiesHold(p, s, i) && AdditionalHold(p, s, i)
    ensures !i.Arr? ==> ItemsHold(p, s, i)
  {
  }

  // ----- the pass means what it reads -----

  /** The closed schema accepts exactly what the pass reads the schema to accept, for every schema. */
  lemma {:induction false} CloseExact(p: Position, s: Json, i: Json, skip: bool)
    ensures Accepts(p, Close(s, skip), i) <==> AcceptsClosed(p, s, i, skip)
    decreases s
  {
    hide TypeHolds, RequiredHolds, PropertiesHold, AdditionalHold, ItemsHold, NotHolds, Verdicts, AllOf, AnyOf, OneOf;
    hide FieldClosed, ItemsClosed, NotClosed;
    if !s.Obj? {
      OnlyObjectsChange(s, skip);
    } else {
      CloseKeepsReads(p, s, skip);
      if !p.Reads(s) {
        CloseKeepsTheRest(p, s, i, skip);
        OtherKinds(p, Close(s, skip), i);
        CloseReadsItems(p, s, i, skip);
        CloseReadsNot(p, s, i, skip);
        if i.Obj? {
          CloseReadsFields(p, s, i, skip);
        }
      }
    }
  }

  lemma {:induction false} CloseReadsItems(p: Position, s: Json, i: Json, skip: bool)
    requires s.Obj?
    ensures ItemsHold(p, Close(s, skip), i) <==> ItemsClosed(p, s, i)
    decreases s, 0
  {
    CloseKeepsKeyword(s, skip, "items");
    if "items" in s.fields && i.Arr? {
      forall j | 0 <= j < |i.elems|
        ensures Accepts(p.Under(), Close(s.fields["items"], false), i.elems[j])
                <==> AcceptsClosed(p.Under(), s.fields["items"], i.elems[j], false)
      {
        CloseExact(p.Under(), s.fields["items"], i.elems[j], false);
      }
    }
  }

  lemma {:induction false} CloseReadsNot(p: Position, s: Json, i: Json, skip: bool)
    requires s.Obj?
    ensures NotHolds(p, Close(s, skip), i) <==> NotClosed(p, s, i)
    decreases s, 0
  {
    CloseKeepsKeyword(s, skip, "not");
    if "not" in s.fields {
      CloseExact(p.Under(), s.fields["not"], i, false);
    }
  }

  lemma {:induction false} CloseReadsField(p: Position, s: Json, i: Json, skip: bool, k: string)
    requires s.Obj? && i.Obj? && k in i.fields
    ensures FieldHolds(p, Close(s, skip), i, k) <==> FieldClosed(p, s, i, skip, k)
    decreases s, 0
  {
    hide Accepts, AcceptsClosed, Close;
    CloseProps(s, skip);
    FieldsOfClose(s.fields, skip);
    FalseAcceptsNothing(p.Under(), i.fields[k]);
    var props := Props(s.fields);
    if k in props {
      CloseExact(p.Under(), props[k], i.fields[k], false);
    } else if ADDITIONAL in s.fields {
      CloseExact(p.Under(), s.fields[ADDITIONAL], i.fields[k], false);
    }
  }

  lemma FalseAcceptsNothing(p: Position, i: Json)
    ensures !Accepts(p, Bool(false), i)
  {
  }

  lemma {:induction false} CloseReadsFields(p: Position, s: Json, i: Json, skip: bool)
    requires s.Obj? && i.Obj?
    ensures PropertiesHold(p, Close(s, skip), i) && AdditionalHold(p, Close(s, skip), i)
            <==> forall k :: k in i.fields ==> FieldClosed(p, s, i, skip, k)
    decreases s, 1
  {
    FieldByField(p, Close(s, skip), i);
    forall k | k in i.fields
      ensures FieldHolds(p, Close(s, skip), i, k) <==> FieldClosed(p, s, i, skip, k)
    {
      CloseReadsField(p, s, i, skip, k);
    }
  }

  // ----- what is lost -----

  lemma CloseKeepsNot(p: Position, s: Json, i: Json, skip: bool)
    requires s.Obj? && NothingToCloseUnderNot(s)
    ensures NotHolds(p, Close(s, skip), i) == NotHolds(p, s, i)
  {
    CloseKeepsKeyword(s, skip, "not");
  }

  /** With nothing to close beneath `not`, the closed schema accepts exactly what was accepted before
      and does not run into what the pass forbids. */
  lemma {:induction false} CloseSplits(p: Position, s: Json, i: Json, skip: bool)
    requires NothingToCloseUnderNot(s)
    ensures Accepts(p, Close(s, skip), i) <==> Accepts(p, s, i) && !Lost(p, s, i, skip)
    decreases s
  {
    hide Lost, TypeHolds, RequiredHolds, PropertiesHold, AdditionalHold, ItemsHold, NotHolds, Verdicts, AllOf,
        AnyOf, OneOf;
    LostNeedsStructure(p, s, i, skip);
    if !s.Obj? {
    } else {
      CloseKeepsReads(p, s, skip);
      OtherKinds(p, s, i);
      OtherKinds(p, Close(s, skip), i);
      if !p.Reads(s) {
        CloseKeepsTheRest(p, s, i, skip);
        CloseKeepsNot(p, s, i, skip);
        if i.Obj? {
          CloseSplitsOnObject(p, s, i, skip);
        } else if i.Arr? {
          CloseSplitsOnArray(p, s, i, skip);
        }
      }
    }
  }

  lemma {:induction false} CloseSplitsOnArray(p: Position, s: Json, i: Json, skip: bool)
    requires s.Obj? && i.Arr? && NothingToCloseUnderNot(s) && !p.Reads(s)
    ensures ItemsHold(p, Close(s, skip), i) <==> ItemsHold(p, s, i) && !Lost(p, s, i, skip)
    decreases s, 0
  {
    if "items" in s.fields {
      forall j | 0 <= j < |i.elems|
        ensures Accepts(p.Under(), Close(s.fields["items"], false), i.elems[j])
                <==> Accepts(p.Under(), s.fields["items"], i.elems[j])
                     && !Lost(p.Under(), s.fields["items"], i.elems[j], false)
      {
        CloseSplits(p.Under(), s.fields["items"], i.elems[j], false);
      }
    }
  }

  /** What becomes of one field of the instance. */
  ghost predicate FieldHolds(p: Position, s: Json, i: Json, k: string)
    requires s.Obj? && i.Obj? && k in i.fields
  {
    var props := Props(s.fields);
    if k in props then Accepts(p.Under(), props[k], i.fields[k])
    else ADDITIONAL in s.fields ==> Accepts(p.Under(), s.fields[ADDITIONAL], i.fields[k])
  }

  ghost predicate FieldLost(p: Position, s: Json, i: Json, skip: bool, k: string)
    requires s.Obj? && i.Obj? && k in i.fields
  {
    var f, props := s.fields, Props(s.fields);
    || (NewlyClosed(f, skip) && k !in props)
    || (GainsPhantom(f) && k == ADDITIONAL)
    || (k in props && Lost(p.Under(), props[k], i.fields[k], false))
    || (k !in props && ADDITIONAL in f && Lost(p.Under(), f[ADDITIONAL], i.fields[k], false))
  }

  lemma FieldByField(p: Position, s: Json, i: Json)
    requires s.Obj? && i.Obj?
    ensures PropertiesHold(p, s, i) && AdditionalHold(p, s, i) <==> forall k :: k in i.fields ==> FieldHolds(p, s, i, k)
  {
    if forall k :: k in i.fields ==> FieldHolds(p, s, i, k) {
      var props := Props(s.fields);
      forall k | k in props && k in i.fields
        ensures Accepts(p.Under(), props[k], i.fields[k])
      {
        assert FieldHolds(p, s, i, k);
      }
    }
  }

  lemma LostFieldByField(p: Position, s: Json, i: Json, skip: bool)
    requires s.Obj? && i.Obj? && !p.Reads(s)
    ensures Lost(p, s, i, skip) <==> exists k :: k in i.fields && FieldLost(p, s, i, skip, k)
  {
    if Lost(p, s, i, skip) {
      var f, props := s.fields, Props(s.fields);
      if NewlyClosed(f, skip) && !(i.fields.Keys <= props.Keys) {
        var k :| k in i.fields && k !in props;
        assert FieldLost(p, s, i, skip, k);
      } else if GainsPhantom(f) && ADDITIONAL in i.fields {
        assert FieldLost(p, s, i, skip, ADDITIONAL);
      } else if k :| k in props && k in i.fields && Lost(p.Under(), props[k], i.fields[k], false) {
        assert FieldLost(p, s, i, skip, k);
      } else {
        var k :| k in i.fields && k !in props && Lost(p.Under(), f[ADDITIONAL], i.fields[k], false);
        assert FieldLost(p, s, i, skip, k);
      }
    }
  }

  lemma {:induction false} CloseSplitsOnField(p: Position, s: Json, i: Json, skip: bool, k: string)
    requires s.Obj? && i.Obj? && NothingToCloseUnderNot(s) && !p.Reads(s) && k in i.fields
    ensures FieldHolds(p, Close(s, skip), i, k) <==> FieldHolds(p, s, i, k) && !FieldLost(p, s, i, skip, k)
    decreases s, 0
  {
    CloseProps(s, skip);
    var props := Props(s.fields);
    if k in props {
      CloseSplits(p.Under(), props[k], i.fields[k], false);
    } else if ADDITIONAL in s.fields {
      assert Close(s, skip).fields[ADDITIONAL] == Close(s.fields[ADDITIONAL], false);
      CloseSplits(p.Under(), s.fields[ADDITIONAL], i.fields[k], false);
    }
  }

  lemma {:induction false} CloseSplitsOnObject(p: Position, s: Json, i: Json, skip: bool)
    requires s.Obj? && i.Obj? && NothingToCloseUnderNot(s) && !p.Reads(s)
    ensures PropertiesHold(p, Close(s, skip), i) && AdditionalHold(p, Close(s, skip), i)
            <==> PropertiesHold(p, s, i) && AdditionalHold(p, s, i) && !Lost(p, s, i, skip)
    decreases s, 1
  {
    var after := Close(s, skip);
    CloseKeepsReads(p, s, skip);
    FieldByField(p, s, i);
    FieldByField(p, after, i);
    LostFieldByField(p, s, i, skip);
    forall k | k in i.fields
      ensures FieldHolds(p, after, i, k) <==> FieldHolds(p, s, i, k) && !FieldLost(p, s, i, skip, k)
    {
      CloseSplitsOnField(p, s, i, skip, k);
    }
  }

  /** Closing objects never admits a new instance. */
  lemma CloseOnlyNarrows(p: Position, s: Json, i: Json, skip: bool)
    requires NothingToCloseUnderNot(s)
    requires Accepts(p, Close(s, skip), i)
    ensures Accepts(p, s, i)
  {
    CloseSplits(p, s, i, skip);
  }

  /** An object with one declared property, open or under `not`. */
  const OPEN_OBJECT: Json := Obj(map[PROPERTIES := Obj(map["a" := Bool(true)])])
  const NOT_OPEN_OBJECT: Json := Obj(map["not" := OPEN_OBJECT])

  lemma OpenObjectAccepts(p: Position, i: Json)
    ensures Accepts(p, OPEN_OBJECT, i)
  {
    var f := OPEN_OBJECT.fields;
    assert forall keyword :: keyword != PROPERTIES ==> keyword !in f && Branches(f, keyword) == [];
    assert Props(f).Keys == {"a"};
  }

  lemma UndeclaredIsLost(p: Position, name: string)
    requires p.dialect.Plain? && name != "a"
    ensures Lost(p, OPEN_OBJECT, Obj(map[name := Null]), false)
  {
    var i := Obj(map[name := Null]);
    assert name in i.fields && name !in Props(OPEN_OBJECT.fields);
  }

  lemma NotAlone(p: Position, s: Json, i: Json)
    ensures Accepts(p, Obj(map["not" := s]), i) <==> !Accepts(p.Under(), s, i)
  {
    var f := map["not" := s];
    assert f.Keys == {"not"};
    assert Branches(f, "allOf") == Branches(f, "anyOf") == Branches(f, "oneOf") == Branches(f, "required") == [];
  }

  /** Under `not` it does, and exactly these: the instances that the schema beneath accepts and the
      pass no longer reads it to accept. */
  lemma CloseGainsUnderNotExactly(p: Position, t: Json, i: Json, skip: bool)
    ensures var s := Obj(map["not" := t]);
            Accepts(p, Close(s, skip), i) && !Accepts(p, s, i)
            <==> Accepts(p.Under(), t, i) && !AcceptsClosed(p.Under(), t, i, false)
  {
    hide Accepts, AcceptsClosed;
    var s := Obj(map["not" := t]);
    assert Close(s, skip) == Obj(map["not" := Close(t, false)]) by {
      assert Close(s, skip).fields == map["not" := Close(t, false)];
    }
    NotAlone(p, t, i);
    NotAlone(p, Close(t, false), i);
    CloseExact(p.Under(), t, i, false);
  }

  /** For instance an object with an undeclared field becomes acceptable. */
  lemma CloseWidensUnderNot(skip: bool)
    ensures var i := Obj(map["b" := Null]);
            && Accepts(Position(Plain, false), Close(NOT_OPEN_OBJECT, skip), i)
            && !Accepts(Position(Plain, false), NOT_OPEN_OBJECT, i)
  {
    hide Accepts, Lost;
    var i := Obj(map["b" := Null]);
    var p := Position(Plain, false);
    var after := Close(NOT_OPEN_OBJECT, skip);
    OpenObjectAccepts(p.Under(), i);
    NotAlone(p, OPEN_OBJECT, i);
    assert !Accepts(p.Under(), Close(OPEN_OBJECT, false), i) by {
      UndeclaredIsLost(p.Under(), "b");
      CloseSplits(p.Under(), OPEN_OBJECT, i, false);
    }
    assert after == Obj(map["not" := Close(OPEN_OBJECT, false)]) by {
      assert after.fields == map["not" := Close(OPEN_OBJECT, false)];
    }
    NotAlone(p, Close(OPEN_OBJECT, false), i);
  }

  // ----- undeclared fields and the phantom -----

  /** An undeclared field at a newly closed object. */
  ghost predicate Stray(p: Position, s: Json, i: Json, skip: bool)
    decreases s
  {
    s.Obj? && !p.Reads(s) &&
    var f, props := s.fields, Props(s.fields);
    || (i.Obj? && NewlyClosed(f, skip) && !(i.fields.Keys <= props.Keys))
    || (i.Obj? && exists k :: k in props && k in i.fields && Stray(p.Under(), props[k], i.fields[k], false))
    || (i.Obj? && ADDITIONAL in f &&
        exists k :: k in i.fields && k !in props && Stray(p.Under(), f[ADDITIONAL], i.fields[k], false))
    || (i.Arr? && "items" in f && exists j :: 0 <= j < |i.elems| && Stray(p.Under(), f["items"], i.elems[j], false))
  }

  /** A field named after the phantom property, at a table that gains it. */
  ghost predicate PhantomHit(p: Position, s: Json, i: Json)
    decreases s
  {
    s.Obj? && !p.Reads(s) &&
    var f, props := s.fields, Props(s.fields);
    || (i.Obj? && GainsPhantom(f) && ADDITIONAL in i.fields)
    || (i.Obj? && exists k :: k in props && k in i.fields && PhantomHit(p.Under(), props[k], i.fields[k]))
    || (&& i.Obj? && ADDITIONAL in f
        && exists k :: k in i.fields && k !in props && PhantomHit(p.Under(), f[ADDITIONAL], i.fields[k]))
    || (i.Arr? && "items" in f && exists j :: 0 <= j < |i.elems| && PhantomHit(p.Under(), f["items"], i.elems[j]))
  }

  lemma {:induction false} PhantomHitIsLost(p: Position, s: Json, i: Json, skip: bool)
    requires PhantomHit(p, s, i)
    ensures Lost(p, s, i, skip)
    decreases s
  {
    var f, props := s.fields, Props(s.fields);
    if i.Obj? && GainsPhantom(f) && ADDITIONAL in i.fields {
    } else if i.Obj? && exists k :: k in props && k in i.fields && PhantomHit(p.Under(), props[k], i.fields[k]) {
      var k :| k in props && k in i.fields && PhantomHit(p.Under(), props[k], i.fields[k]);
      PhantomHitIsLost(p.Under(), props[k], i.fields[k], false);
    } else if i.Obj? {
      var k :| k in i.fields && k !in props && PhantomHit(p.Under(), f[ADDITIONAL], i.fields[k]);
      PhantomHitIsLost(p.Under(), f[ADDITIONAL], i.fields[k], false);
    } else {
      var j :| 0 <= j < |i.elems| && PhantomHit(p.Under(), f["items"], i.elems[j]);
      PhantomHitIsLost(p.Under(), f["items"], i.elems[j], false);
    }
  }

  lemma {:induction false} LostIsStrayOrPhantom(p: Position, s: Json, i: Json, skip: bool)
    requires Lost(p, s, i, skip)
    ensures Stray(p, s, i, skip) || PhantomHit(p, s, i)
    decreases s
  {
    var f, props := s.fields, Props(s.fields);
    if i.Obj? && NewlyClosed(f, skip) && !(i.fields.Keys <= props.Keys) {
    } else if i.Obj? && GainsPhantom(f) && ADDITIONAL in i.fields {
    } else if i.Obj? && exists k :: k in props && k in i.fields && Lost(p.Under(), props[k], i.fields[k], false) {
      var k :| k in props && k in i.fields && Lost(p.Under(), props[k], i.fields[k], false);
      LostIsStrayOrPhantom(p.Under(), props[k], i.fields[k], false);
    } else if i.Obj? {
      var k :| k in i.fields && k !in props && Lost(p.Under(), f[ADDITIONAL], i.fields[k], false);
      LostIsStrayOrPhantom(p.Under(), f[ADDITIONAL], i.fields[k], false);
    } else {
      var j :| 0 <= j < |i.elems| && Lost(p.Under(), f["items"], i.elems[j], false);
      LostIsStrayOrPhantom(p.Under(), f["items"], i.elems[j], false);
    }
  }

  /** What the pass forbids, for every schema and instance, is an undeclared field at a newly closed
      object or a field named after the phantom at a table that gains it. */
  lemma ForbiddenExactly(p: Position, s: Json, i: Json, skip: bool)
    ensures Lost(p, s, i, skip) <==> Stray(p, s, i, skip) || PhantomHit(p, s, i)
  {
    hide Lost, Stray, PhantomHit;
    if Lost(p, s, i, skip) {
      LostIsStrayOrPhantom(p, s, i, skip);
    }
    if Stray(p, s, i, skip) {
      StrayIsLost(p, s, i, skip);
    }
    if PhantomHit(p, s, i) {
      PhantomHitIsLost(p, s, i, skip);
    }
  }

  /** So an accepted instance is lost exactly when it has one of the two. */
  lemma LossesExactly(p: Position, s: Json, i: Json, skip: bool)
    requires NothingToCloseUnderNot(s)
    ensures Accepts(p, s, i) && !Accepts(p, Close(s, skip), i)
            <==> Accepts(p, s, i) && (Stray(p, s, i, skip) || PhantomHit(p, s, i))
  {
    hide Accepts, Close, Lost, Stray, PhantomHit;
    CloseSplits(p, s, i, skip);
    ForbiddenExactly(p, s, i, skip);
  }

  /** Somewhere a table of properties gains the phantom while its object stays open. */
  predicate PhantomAtOpenObject(p: Position, s: Json, skip: bool)
    decreases s
  {
    s.Obj? && !p.Reads(s) &&
    var f, props := s.fields, Props(s.fields);
    || (GainsPhantom(f) && !NewlyClosed(f, skip))
    || (exists k :: k in props && PhantomAtOpenObject(p.Under(), props[k], false))
    || (ADDITIONAL in f && PhantomAtOpenObject(p.Under(), f[ADDITIONAL], false))
    || ("items" in f && PhantomAtOpenObject(p.Under(), f["items"], false))
  }

  lemma {:induction false} StrayIsLost(p: Position, s: Json, i: Json, skip: bool)
    requires Stray(p, s, i, skip)
    ensures Lost(p, s, i, skip)
    decreases s
  {
    var f, props := s.fields, Props(s.fields);
    if i.Obj? && NewlyClosed(f, skip) && !(i.fields.Keys <= props.Keys) {
    } else if i.Obj? && exists k :: k in props && k in i.fields && Stray(p.Under(), props[k], i.fields[k], false) {
      var k :| k in props && k in i.fields && Stray(p.Under(), props[k], i.fields[k], false);
      StrayIsLost(p.Under(), props[k], i.fields[k], false);
    } else if i.Obj? {
      var k :| k in i.fields && k !in props && Stray(p.Under(), f[ADDITIONAL], i.fields[k], false);
      StrayIsLost(p.Under(), f[ADDITIONAL], i.fields[k], false);
    } else {
      var j :| 0 <= j < |i.elems| && Stray(p.Under(), f["items"], i.elems[j], false);
      StrayIsLost(p.Under(), f["items"], i.elems[j], false);
    }
  }

  lemma {:induction false} LostIsStray(p: Position, s: Json, i: Json, skip: bool)
    requires Lost(p, s, i, skip) && !PhantomAtOpenObject(p, s, skip)
    ensures Stray(p, s, i, skip)
    decreases s
  {
    var f, props := s.fields, Props(s.fields);
    if i.Obj? && NewlyClosed(f, skip) && !(i.fields.Keys <= props.Keys) {
    } else if i.Obj? && exists k :: k in props && k in i.fields && Lost(p.Under(), props[k], i.fields[k], false) {
      var k :| k in props && k in i.fields && Lost(p.Under(), props[k], i.fields[k], false);
      LostIsStray(p.Under(), props[k], i.fields[k], false);
    } else if i.Obj? {
      var k :| k in i.fields && k !in props && ADDITIONAL in f && Lost(p.Under(), f[ADDITIONAL], i.fields[k], false);
      LostIsStray(p.Under(), f[ADDITIONAL], i.fields[k], false);
    } else {
      var j :| 0 <= j < |i.elems| && Lost(p.Under(), f["items"], i.elems[j], false);
      LostIsStray(p.Under(), f["items"], i.elems[j], false);
    }
  }

  /** A name outside a finite table. */
  lemma {:induction false} FreshName(keys: set<string>, base: string) returns (name: string)
    ensures name !in keys && base <= name
    decreases |keys|
  {
    if base !in keys {
      name := base;
    } else {
      name := FreshName(keys - {base}, base + "x");
    }
  }

  lemma {:induction false} PhantomWitness(p: Position, s: Json, skip: bool) returns (i: Json)
    requires PhantomAtOpenObject(p, s, skip)
    ensures Lost(p, s, i, skip) && !Stray(p, s, i, skip)
    decreases s
  {
    var f, props := s.fields, Props(s.fields);
    if GainsPhantom(f) && !NewlyClosed(f, skip) {
      i := Obj(map[ADDITIONAL := Null]);
    } else if k :| k in props && PhantomAtOpenObject(p.Under(), props[k], false) {
      var w := PhantomWitness(p.Under(), props[k], false);
      i := Obj(map[k := w]);
      assert k in i.fields && i.fields[k] == w;
    } else if ADDITIONAL in f && PhantomAtOpenObject(p.Under(), f[ADDITIONAL], false) {
      var w := PhantomWitness(p.Under(), f[ADDITIONAL], false);
      var name := FreshName(props.Keys, "x");
      i := Obj(map[name := w]);
      assert name in i.fields && i.fields[name] == w;
    } else {
      var w := PhantomWitness(p.Under(), f["items"], false);
      i := Arr([w]);
      assert i.elems[0] == w;
    }
  }

  /** Over all instances, accepted or not, what the pass forbids is the same as an undeclared field at
      a newly closed object if and only if no table gains the phantom at an object that stays open. */
  lemma ForbiddenIsUndeclaredExactlyWhen(p: Position, s: Json, skip: bool)
    ensures (forall i :: Lost(p, s, i, skip) <==> Stray(p, s, i, skip)) <==> !PhantomAtOpenObject(p, s, skip)
  {
    if PhantomAtOpenObject(p, s, skip) {
      var i := PhantomWitness(p, s, skip);
    } else {
      forall i
        ensures Lost(p, s, i, skip) <==> Stray(p, s, i, skip)
      {
        if Stray(p, s, i, skip) {
          StrayIsLost(p, s, i, skip);
        } else if Lost(p, s, i, skip) {
          LostIsStray(p, s, i, skip);
        }
      }
    }
  }

  /** For instance this open object, with a property named "properties", loses an instance that has no
      undeclared field at a newly closed object. */
  lemma PhantomLosesAnInstance(skip: bool)
    ensures var s := Obj(map[PROPERTIES := Obj(map[PROPERTIES := Bool(true)]), ADDITIONAL := Bool(true)]);
            var i := Obj(map[ADDITIONAL := Null]);
            var p := Position(Plain, false);
            Accepts(p, s, i) && !Accepts(p, Close(s, skip), i) && !Stray(p, s, i, skip)
  {
    var f := map[PROPERTIES := Obj(map[PROPERTIES := Bool(true)]), ADDITIONAL := Bool(true)];
    var s, i, p := Obj(f), Obj(map[ADDITIONAL := Null]), Position(Plain, false);
    assert Props(f).Keys == {PROPERTIES};
    assert i.fields.Keys == {ADDITIONAL};
    assert Accepts(p, s, i) by {
      assert f.Keys == {PROPERTIES, ADDITIONAL};
      assert Accepts(p.Under(), Bool(true), Null);
      assert PropertiesHold(p, s, i) && AdditionalHold(p, s, i);
      assert Branches(f, "allOf") == Branches(f, "anyOf") == Branches(f, "oneOf") == Branches(f, "required") == [];
    }
    hide Accepts;
    assert Lost(p, s, i, skip);
    CloseSplits(p, s, i, skip);
  }

  predicate NoPropertyNamedProperties(s: Json)
    decreases s
  {
    s.Obj? ==>
      && PROPERTIES !in Props(s.fields)
      && (forall k :: k in Props(s.fields) ==> NoPropertyNamedProperties(Props(s.fields)[k]))
      && (ADDITIONAL in s.fields ==> NoPropertyNamedProperties(s.fields[ADDITIONAL]))
      && ("items" in s.fields ==> NoPropertyNamedProperties(s.fields["items"]))
  }

  lemma {:induction false} NoSuchPropertyNoPhantom(p: Position, s: Json, skip: bool)
    requires NoPropertyNamedProperties(s)
    ensures !PhantomAtOpenObject(p, s, skip)
    decreases s
  {
    if !s.Obj? {
    } else {
      forall k | k in Props(s.fields)
        ensures !PhantomAtOpenObject(p.Under(), Props(s.fields)[k], false)
      {
        NoSuchPropertyNoPhantom(p.Under(), Props(s.fields)[k], false);
      }
      if ADDITIONAL in s.fields {
        NoSuchPropertyNoPhantom(p.Under(), s.fields[ADDITIONAL], false);
      }
      if "items" in s.fields {
        NoSuchPropertyNoPhantom(p.Under(), s.fields["items"], false);
      }
    }
  }

  /** Unless a table gains the phantom at an object that stays open, and so in particular without a
      property named "properties", closing loses exactly the instances with an undeclared field at a
      newly closed object. */
  lemma CloseLosesUndeclaredFields(p: Position, s: Json, i: Json, skip: bool)
    requires NothingToCloseUnderNot(s)
    requires !PhantomAtOpenObject(p, s, skip) || NoPropertyNamedProperties(s)
    ensures Accepts(p, Close(s, skip), i) <==> Accepts(p, s, i) && !Stray(p, s, i, skip)
  {
    hide Accepts, Close, Lost, Stray;
    CloseSplits(p, s, i, skip);
    if NoPropertyNamedProperties(s) {
      NoSuchPropertyNoPhantom(p, s, skip);
    }
    ForbiddenIsUndeclaredExactlyWhen(p, s, skip);
  }

  // ----- the pass that replaces int-or-string -----

  /** The values of a table of properties are schemas, so the table has no string under "format". */
  predicate TablesAreTables(s: Json)
    decreases s
  {
    s.Obj? ==>
      var f := s.fields;
      && (PROPERTIES in f && f[PROPERTIES].Obj? ==> !IsIntOrString(f[PROPERTIES].fields))
      && (forall k :: k in Props(f) ==> TablesAreTables(Props(f)[k]))
      && (ADDITIONAL in f ==> TablesAreTables(f[ADDITIONAL]))
      && ("items" in f ==> TablesAreTables(f["items"]))
      && ("not" in f ==> TablesAreTables(f["not"]))
      && (forall j :: 0 <= j < |Branches(f, "allOf")| ==> TablesAreTables(Branches(f, "allOf")[j]))
      && (forall j :: 0 <= j < |Branches(f, "anyOf")| ==> TablesAreTables(Branches(f, "anyOf")[j]))
      && (forall j :: 0 <= j < |Branches(f, "oneOf")| ==> TablesAreTables(Branches(f, "oneOf")[j]))
  }

  function ReplaceAt(stored: bool, s: Json): Json {
    if stored then ReplaceValue(s) else Replace(s)
  }

  lemma TypeAloneAccepts(p: Position, name: string, i: Json)
    requires p.dialect.Plain?
    ensures Accepts(p, Obj(map["type" := Str(name)]), i) <==> HasType(name, i)
  {
    var s := Obj(map["type" := Str(name)]);
    assert Props(s.fields) == map[];
    assert forall keyword :: keyword != "type" ==> Branches(s.fields, keyword) == [];
  }

  lemma OneOfAlone(p: Position, i: Json)
    requires p.dialect.Plain?
    ensures Accepts(p, STRING_OR_INTEGER, i) <==> OneOf(Verdicts(p, STRING_OR_INTEGER, i, "oneOf"))
  {
    hide OneOf;
    var f := STRING_OR_INTEGER.fields;
    assert f.Keys == {"oneOf"};
    assert Props(f) == map[];
    assert Branches(f, "allOf") == Branches(f, "anyOf") == Branches(f, "required") == [];
  }

  lemma VerdictsOfTypes(p: Position, i: Json)
    requires p.dialect.Plain?
    ensures Verdicts(p, STRING_OR_INTEGER, i, "oneOf") == [i.Str?, IsInteger(i)]
  {
    hide Accepts;
    TypeAloneAccepts(p.InList(), "string", i);
    TypeAloneAccepts(p.InList(), "integer", i);
    var branches := Branches(STRING_OR_INTEGER.fields, "oneOf");
    assert branches == [Obj(map["type" := Str("string")]), Obj(map["type" := Str("integer")])];
  }

  lemma StringOrIntegerAccepts(p: Position, i: Json)
    requires p.dialect.Plain?
    ensures Accepts(p, STRING_OR_INTEGER, i) <==> i.Str? || IsInteger(i)
  {
    hide Accepts, Verdicts;
    OneOfAlone(p, i);
    VerdictsOfTypes(p, i);
    var v := Verdicts(p, STRING_OR_INTEGER, i, "oneOf");
    if i.Str? {
      assert v[0] && !v[1];
    } else if IsInteger(i) {
      assert v[1] && !v[0];
    }
  }

  lemma ReplaceKeepsKeyword(s: Json, keyword: string)
    requires s.Obj?
    ensures keyword in Replace(s).fields <==> keyword in s.fields
    ensures keyword in s.fields ==> Replace(s).fields[keyword] == ReplaceValue(s.fields[keyword])
    ensures |Branches(Replace(s).fields, keyword)| == |Branches(s.fields, keyword)|
    ensures forall j :: 0 <= j < |Branches(s.fields, keyword)| ==>
              Branches(Replace(s).fields, keyword)[j] == Replace(Branches(s.fields, keyword)[j])
  {
  }

  lemma ReplaceKeepsTypeAndRequired(s: Json, i: Json)
    requires s.Obj?
    ensures TypeHolds(Replace(s).fields, i) == TypeHolds(s.fields, i)
    ensures RequiredHolds(Replace(s).fields, i) == RequiredHolds(s.fields, i)
  {
    ReplaceKeepsKeyword(s, "type");
    ReplaceKeepsKeyword(s, "required");
    var before, after := Branches(s.fields, "required"), Branches(Replace(s).fields, "required");
    forall r: Json | r.Str?
      ensures r in after <==> r in before
    {
      if r in before {
        var j :| 0 <= j < |before| && before[j] == r;
        assert after[j] == r;
      }
      if r in after {
        var j :| 0 <= j < |after| && after[j] == r;
        assert after[j] == Replace(before[j]);
        assert before[j] == r;
      }
    }
  }

  lemma ReplaceProps(s: Json)
    requires s.Obj? && TablesAreTables(s)
    ensures Props(Replace(s).fields).Keys == Props(s.fields).Keys
    ensures forall k :: k in Props(s.fields) ==> Props(Replace(s).fields)[k] == ReplaceValue(Props(s.fields)[k])
  {
    ReplaceKeepsKeyword(s, PROPERTIES);
  }

  /** The replaced schema, with format a mere annotation, accepts exactly what the original
      accepts when int-or-string is read as Kubernetes means it. */
  lemma {:induction false} ReplaceExact(stored: bool, s: Json, i: Json)
    requires TablesAreTables(s)
    ensures Accepts(Position(Plain, stored), ReplaceAt(stored, s), i) <==> Accepts(Position(IntOrString, stored), s, i)
    decreases s
  {
    var plain, k8s := Position(Plain, stored), Position(IntOrString, stored);
    if !s.Obj? {
    } else {
      if k8s.Reads(s) {
        StringOrIntegerAccepts(plain, i);
      } else {
        ReplaceKeepsTypeAndRequired(s, i);
        ReplaceExactOnObject(stored, s, i);
        ReplaceExactOnRest(stored, s, i);
        ReplaceExactOnBranches(stored, s, i, "allOf");
        ReplaceExactOnBranches(stored, s, i, "anyOf");
        ReplaceExactOnBranches(stored, s, i, "oneOf");
      }
    }
  }

  lemma {:induction false} ReplaceExactOnObject(stored: bool, s: Json, i: Json)
    requires s.Obj? && TablesAreTables(s)
    ensures PropertiesHold(Position(Plain, stored), Replace(s), i)
              == PropertiesHold(Position(IntOrString, stored), s, i)
    ensures AdditionalHold(Position(Plain, stored), Replace(s), i)
              == AdditionalHold(Position(IntOrString, stored), s, i)
    decreases s, 0
  {
    ReplaceProps(s);
    ReplaceKeepsKeyword(s, ADDITIONAL);
    if !i.Obj? {
    } else {
      var props := Props(s.fields);
      forall k | k in props && k in i.fields
        ensures Accepts(Position(Plain, true), ReplaceValue(props[k]), i.fields[k])
                <==> Accepts(Position(IntOrString, true), props[k], i.fields[k])
      {
        ReplaceExact(true, props[k], i.fields[k]);
      }
      if ADDITIONAL in s.fields {
        forall k | k in i.fields
          ensures Accepts(Position(Plain, true), ReplaceValue(s.fields[ADDITIONAL]), i.fields[k])
                  <==> Accepts(Position(IntOrString, true), s.fields[ADDITIONAL], i.fields[k])
        {
          ReplaceExact(true, s.fields[ADDITIONAL], i.fields[k]);
        }
      }
    }
  }

  lemma {:induction false} ReplaceExactOnRest(stored: bool, s: Json, i: Json)
    requires s.Obj? && TablesAreTables(s)
    ensures ItemsHold(Position(Plain, stored), Replace(s), i) == ItemsHold(Position(IntOrString, stored), s, i)
    ensures NotHolds(Position(Plain, stored), Replace(s), i) == NotHolds(Position(IntOrString, stored), s, i)
    decreases s, 0
  {
    ReplaceKeepsKeyword(s, "items");
    ReplaceKeepsKeyword(s, "not");
    if "items" in s.fields && i.Arr? {
      forall j | 0 <= j < |i.elems|
        ensures Accepts(Position(Plain, true), ReplaceValue(s.fields["items"]), i.elems[j])
                <==> Accepts(Position(IntOrString, true), s.fields["items"], i.elems[j])
      {
        ReplaceExact(true, s.fields["items"], i.elems[j]);
      }
    }
    if "not" in s.fields {
      ReplaceExact(true, s.fields["not"], i);
    }
  }

  lemma {:induction false} ReplaceExactOnBranches(stored: bool, s: Json, i: Json, keyword: string)
    requires s.Obj?
    requires forall j :: 0 <= j < |Branches(s.fields, keyword)| ==> TablesAreTables(Branches(s.fields, keyword)[j])
    ensures Verdicts(Position(Plain, stored), Replace(s), i, keyword)
            == Verdicts(Position(IntOrString, stored), s, i, keyword)
    decreases s, 0
  {
    ReplaceKeepsKeyword(s, keyword);
    forall j | 0 <= j < |Branches(s.fields, keyword)|
      ensures Accepts(Position(Plain, false), Replace(Branches(s.fields, keyword)[j]), i)
              <==> Accepts(Position(IntOrString, false), Branches(s.fields, keyword)[j], i)
    {
      ReplaceExact(false, Branches(s.fields, keyword)[j], i);
    }
  }

  // ----- the schema file -----

  lemma CloseKeepsTable(s: Json, skip: bool)
    requires s.Obj?
    requires PROPERTIES in s.fields && s.fields[PROPERTIES].Obj? ==> !IsIntOrString(s.fields[PROPERTIES].fields)
    ensures var f := Close(s, skip).fields;
            PROPERTIES in f && f[PROPERTIES].Obj? ==> !IsIntOrString(f[PROPERTIES].fields)
  {
    hide Close, IsIntOrString, Branches;
    CloseKeepsKeyword(s, skip, PROPERTIES);
    if PROPERTIES in s.fields {
      if s.fields[PROPERTIES].Obj? {
        FormatSurvivesClose(s.fields[PROPERTIES].fields, false);
      } else {
        OnlyObjectsChange(s.fields[PROPERTIES], false);
      }
    }
  }

  lemma {:induction false} CloseKeepsTables(s: Json, skip: bool)
    requires TablesAreTables(s)
    ensures TablesAreTables(Close(s, skip))
    decreases s
  {
    hide Close, IsIntOrString, Branches;
    if !s.Obj? {
      OnlyObjectsChange(s, skip);
    } else {
      FieldsOfClose(s.fields, skip);
      var f, after := s.fields, Close(s, skip).fields;
      CloseProps(s, skip);
      forall k | k in Props(f)
        ensures TablesAreTables(Close(Props(f)[k], false))
      {
        CloseKeepsTables(Props(f)[k], false);
      }
      CloseKeepsTable(s, skip);
      CloseKeepsKeyword(s, skip, "items");
      CloseKeepsKeyword(s, skip, "not");
      CloseKeepsKeyword(s, skip, "allOf");
      CloseKeepsKeyword(s, skip, "anyOf");
      CloseKeepsKeyword(s, skip, "oneOf");
      if "items" in f {
        CloseKeepsTables(f["items"], false);
      }
      if "not" in f {
        CloseKeepsTables(f["not"], false);
      }
      if ADDITIONAL in f {
        CloseKeepsTables(f[ADDITIONAL], false);
        assert after[ADDITIONAL] == Close(f[ADDITIONAL], false);
      }
    }
  }

  /** The file written for a schema accepts an instance exactly when the closing pass reads the
      schema to accept it, with int-or-string read as Kubernetes means it. */
  lemma WrittenExact(s: Json, i: Json, denyRoot: bool)
    requires TablesAreTables(s)
    ensures Accepts(Position(Plain, false), Written(s, denyRoot), i)
            <==> AcceptsClosed(Position(IntOrString, false), s, i, !denyRoot)
  {
    hide Accepts, AcceptsClosed, Close;
    CloseExact(Position(IntOrString, false), s, i, !denyRoot);
    CloseKeepsTables(s, !denyRoot);
    ReplaceExact(false, Close(s, !denyRoot), i);
  }

  /** With nothing to close beneath `not`, that is when the schema itself accepts the instance and
      nothing the closing pass forbids occurs in it. */
  lemma WrittenSplits(s: Json, i: Json, denyRoot: bool)
    requires NothingToCloseUnderNot(s) && TablesAreTables(s)
    ensures Accepts(Position(Plain, false), Written(s, denyRoot), i)
            <==> Accepts(Position(IntOrString, false), s, i) && !Lost(Position(IntOrString, false), s, i, !denyRoot)
  {
    hide Accepts, AcceptsClosed, Lost;
    WrittenExact(s, i, denyRoot);
    CloseExact(Position(IntOrString, false), s, i, !denyRoot);
    CloseSplits(Position(IntOrString, false), s, i, !denyRoot);
  }
}
