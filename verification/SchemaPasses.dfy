/**
  The two passes of scripts/openapi2jsonschema.py as functions on JSON trees,
  and the laws they satisfy on every tree.
 */
module SchemaPasses {
  import opened JsonTree

  const PROPERTIES := "properties"
  const ADDITIONAL := "additionalProperties"

  // ----- additional_properties -----

  predicate NewlyClosed(f: map<string, Json>, skip: bool) {
    PROPERTIES in f && !skip && ADDITIONAL !in f
  }

  function CloseEntries(f: map<string, Json>, skip: bool): map<string, Json> {
    if NewlyClosed(f, skip) then f[ADDITIONAL := Bool(false)] else f
  }

  /** `skip` concerns the root only; lists are not entered. */
  function Close(data: Json, skip: bool): Json
    decreases data
  {
    if data.Obj? then
      Obj(CloseEntries(map k | k in data.fields :: Close(data.fields[k], false), skip))
    else
      data
  }

  /** The pass, field by field. */
  lemma FieldsOfClose(f: map<string, Json>, skip: bool)
    ensures Close(Obj(f), skip).Obj?
    ensures Close(Obj(f), skip).fields.Keys == f.Keys + (if NewlyClosed(f, skip) then {ADDITIONAL} else {})
    ensures forall k :: k in f ==> Close(Obj(f), skip).fields[k] == Close(f[k], false)
    ensures NewlyClosed(f, skip) ==> Close(Obj(f), skip).fields[ADDITIONAL] == Bool(false)
  {
  }

  lemma OnlyObjectsChange(j: Json, skip: bool)
    requires !j.Obj?
    ensures Close(j, skip) == j
  {
  }

  // ----- replace_int_or_string -----

  predicate IsIntOrString(f: map<string, Json>) {
    "format" in f && f["format"] == Str("int-or-string")
  }

  const STRING_OR_INTEGER: Json :=
    Obj(map["oneOf" := Arr([Obj(map["type" := Str("string")]), Obj(map["type" := Str("integer")])])])

  /** The format of `data` itself is not inspected, only the formats of the mappings stored under its keys. */
  function Replace(data: Json): Json
    decreases data, 0
  {
    if data.Obj? then Obj(map k | k in data.fields :: ReplaceValue(data.fields[k])) else data
  }

  function ReplaceValue(v: Json): Json
    decreases v, 1
  {
    match v
    case Obj(f) => if IsIntOrString(f) then STRING_OR_INTEGER else Replace(v)
    case Arr(es) => Arr(seq(|es|, j requires 0 <= j < |es| => Replace(es[j])))
    case _ => v
  }

  /** What `write_schema_file` dumps. */
  function Written(schema: Json, denyRoot: bool): Json {
    Replace(Close(schema, !denyRoot))
  }

  // ----- laws -----

  lemma {:induction false} CloseIdempotent(data: Json, skip: bool)
    ensures Close(Close(data, skip), skip) == Close(data, skip)
    decreases data
  {
    if !data.Obj? {
    } else {
      forall k | k in data.fields
        ensures Close(Close(data.fields[k], false), false) == Close(data.fields[k], false)
      {
        CloseIdempotent(data.fields[k], false);
      }
      assert Close(Close(data, skip), skip).fields == Close(data, skip).fields;
    }
  }

  lemma {:induction false} ReplaceIdempotent(data: Json)
    ensures Replace(Replace(data)) == Replace(data)
    decreases data, 0
  {
    if !data.Obj? {
    } else {
      forall k | k in data.fields
        ensures ReplaceValue(ReplaceValue(data.fields[k])) == ReplaceValue(data.fields[k])
      {
        ReplaceValueIdempotent(data.fields[k]);
      }
      assert Replace(Replace(data)).fields == Replace(data).fields;
    }
  }

  lemma StringOrIntegerIsFixed()
    ensures ReplaceValue(STRING_OR_INTEGER) == STRING_OR_INTEGER
  {
    var branches := STRING_OR_INTEGER.fields["oneOf"];
    forall j | 0 <= j < |branches.elems|
      ensures Replace(branches.elems[j]) == branches.elems[j]
    {
      assert Replace(branches.elems[j]).fields == branches.elems[j].fields;
    }
    assert ReplaceValue(branches).elems == branches.elems;
    assert ReplaceValue(branches) == branches;
    assert Replace(STRING_OR_INTEGER).fields == STRING_OR_INTEGER.fields;
  }

  lemma FormatSurvivesReplace(f: map<string, Json>)
    requires !IsIntOrString(f)
    ensures !IsIntOrString(Replace(Obj(f)).fields)
  {
    if "format" in f {
      assert Replace(Obj(f)).fields["format"] == ReplaceValue(f["format"]);
    }
  }

  lemma {:induction false} ReplaceValueIdempotent(v: Json)
    ensures ReplaceValue(ReplaceValue(v)) == ReplaceValue(v)
    decreases v, 1
  {
    match v
    case Obj(f) =>
      if IsIntOrString(f) {
        StringOrIntegerIsFixed();
      } else {
        ReplaceIdempotent(v);
        FormatSurvivesReplace(f);
      }
    case Arr(es) =>
      forall j | 0 <= j < |es|
        ensures Replace(Replace(es[j])) == Replace(es[j])
      {
        ReplaceIdempotent(es[j]);
      }
      assert ReplaceValue(ReplaceValue(v)).elems == ReplaceValue(v).elems;
    case _ =>
  }

  /** The order of the two passes does not matter, whatever the root flag. */
  lemma {:induction false} PassesCommute(data: Json, skip: bool)
    ensures Replace(Close(data, skip)) == Close(Replace(data), skip)
    decreases data, 0
  {
    if !data.Obj? {
    } else {
      var a, b := Replace(Close(data, skip)).fields, Close(Replace(data), skip).fields;
      var f := data.fields;
      assert NewlyClosed(f, skip) == NewlyClosed(Replace(data).fields, skip);
      assert a.Keys == Close(data, skip).fields.Keys == b.Keys;
      forall k | k in a
        ensures a[k] == b[k]
      {
        if k in f {
          calc {
            a[k];
            ReplaceValue(Close(f[k], false));
            { PassesCommuteOnValue(f[k]); }
            Close(ReplaceValue(f[k]), false);
            b[k];
          }
        } else {
          assert Close(data, skip).fields[k] == Bool(false);
          assert a[k] == ReplaceValue(Bool(false)) == Bool(false);
          assert k !in Replace(data).fields;
          assert b[k] == Bool(false);
        }
      }
      assert a == b;
    }
  }

  lemma StringOrIntegerIsClosed()
    ensures Close(STRING_OR_INTEGER, false) == STRING_OR_INTEGER
  {
    assert Close(STRING_OR_INTEGER, false).fields == STRING_OR_INTEGER.fields;
  }

  lemma FormatSurvivesClose(f: map<string, Json>, skip: bool)
    ensures IsIntOrString(Close(Obj(f), skip).fields) == IsIntOrString(f)
  {
    if "format" in f {
      assert Close(Obj(f), skip).fields["format"] == Close(f["format"], false);
    }
  }

  lemma {:induction false} PassesCommuteOnValue(v: Json)
    ensures ReplaceValue(Close(v, false)) == Close(ReplaceValue(v), false)
    decreases v, 1
  {
    if !v.Obj? {
    } else {
      FormatSurvivesClose(v.fields, false);
      if IsIntOrString(v.fields) {
        StringOrIntegerIsClosed();
      } else {
        PassesCommute(v, false);
      }
    }
  }

  /** So writing a schema that was already written changes nothing. */
  lemma WrittenIdempotent(schema: Json, denyRoot: bool)
    ensures Written(Written(schema, denyRoot), denyRoot) == Written(schema, denyRoot)
  {
    var skip := !denyRoot;
    PassesCommute(schema, skip);
    CloseIdempotent(Replace(schema), skip);
    ReplaceIdempotent(Close(schema, skip));
  }

  // ----- what is left of int-or-string -----

  /** No mapping stored under a key, and reached through mapping values and one-level lists, has the format. */
  predicate NoStoredIntOrString(data: Json)
    decreases data
  {
    data.Obj? ==>
      forall k :: k in data.fields ==>
        match data.fields[k]
        case Obj(f) =>
          !("format" in f && f["format"] == Str("int-or-string")) && NoStoredIntOrString(data.fields[k])
        case Arr(es) => forall j :: 0 <= j < |es| ==> NoStoredIntOrString(es[j])
        case _ => true
  }

  lemma {:induction false} ReplaceRemovesStored(data: Json)
    ensures NoStoredIntOrString(Replace(data))
    decreases data
  {
    if !data.Obj? {
    } else {
      forall k | k in data.fields
        ensures match ReplaceValue(data.fields[k])
                case Obj(f) =>
                  && !("format" in f && f["format"] == Str("int-or-string"))
                  && NoStoredIntOrString(ReplaceValue(data.fields[k]))
                case Arr(es) => forall j :: 0 <= j < |es| ==> NoStoredIntOrString(es[j])
                case _ => true
      {
        var v := data.fields[k];
        if v.Obj? {
          if IsIntOrString(v.fields) {
          } else {
            ReplaceRemovesStored(v);
            FormatSurvivesReplace(v.fields);
          }
        } else if v.Arr? {
          forall j | 0 <= j < |v.elems|
            ensures NoStoredIntOrString(Replace(v.elems[j]))
          {
            ReplaceRemovesStored(v.elems[j]);
          }
        }
      }
    }
  }

  lemma {:induction false} StoredFreeIsFixed(data: Json)
    requires NoStoredIntOrString(data)
    ensures Replace(data) == data
    decreases data
  {
    if !data.Obj? {
    } else {
      forall k | k in data.fields
        ensures ReplaceValue(data.fields[k]) == data.fields[k]
      {
        var v := data.fields[k];
        if v.Obj? {
          StoredFreeIsFixed(v);
        } else if v.Arr? {
          forall j | 0 <= j < |v.elems|
            ensures Replace(v.elems[j]) == v.elems[j]
          {
            StoredFreeIsFixed(v.elems[j]);
          }
          assert ReplaceValue(v).elems == v.elems;
        }
      }
      assert Replace(data).fields == data.fields;
    }
  }

  /** Exactly these trees are left alone by the pass. */
  lemma ReplaceFixesExactly(data: Json)
    ensures Replace(data) == data <==> NoStoredIntOrString(data)
  {
    if Replace(data) == data {
      ReplaceRemovesStored(data);
    }
    if NoStoredIntOrString(data) {
      StoredFreeIsFixed(data);
    }
  }

  /** The root and the direct elements of a list are the exceptions: there the format stays. */
  lemma RootAndListElementsKeepTheFormat(f: map<string, Json>)
    requires "format" in f && f["format"] == Str("int-or-string")
    ensures var f' := Replace(Obj(f)).fields; "format" in f' && f'["format"] == Str("int-or-string")
    ensures ReplaceValue(Arr([Obj(f)])) == Arr([Replace(Obj(f))])
  {
    assert Replace(Obj(f)).fields["format"] == ReplaceValue(f["format"]);
    assert ReplaceValue(Arr([Obj(f)])).elems == [Replace(Obj(f))];
  }

  // ----- what is left to close -----

  /** Every mapping with properties, reached through mapping values, has additionalProperties; the
      root is excused if it is skipped. */
  predicate NothingToClose(data: Json, skip: bool)
    decreases data
  {
    data.Obj? ==>
      && (skip || "properties" !in data.fields || "additionalProperties" in data.fields)
      && forall k :: k in data.fields ==> NothingToClose(data.fields[k], false)
  }

  lemma {:induction false} CloseClosesAll(data: Json, skip: bool)
    ensures NothingToClose(Close(data, skip), skip)
    decreases data
  {
    if !data.Obj? {
    } else {
      FieldsOfClose(data.fields, skip);
      forall k | k in data.fields
        ensures NothingToClose(Close(data.fields[k], false), false)
      {
        CloseClosesAll(data.fields[k], false);
      }
    }
  }

  lemma {:induction false} ClosedIsFixed(data: Json, skip: bool)
    requires NothingToClose(data, skip)
    ensures Close(data, skip) == data
    decreases data
  {
    if !data.Obj? {
    } else {
      forall k | k in data.fields
        ensures Close(data.fields[k], false) == data.fields[k]
      {
        ClosedIsFixed(data.fields[k], false);
      }
      assert Close(data, skip).fields == data.fields;
    }
  }

  /** Exactly the trees with nothing to close are left alone by the pass, and it leaves nothing to close. */
  lemma CloseFixesExactly(data: Json, skip: bool)
    ensures Close(data, skip) == data <==> NothingToClose(data, skip)
    ensures NothingToClose(Close(data, skip), skip)
  {
    CloseClosesAll(data, skip);
    if NothingToClose(data, skip) {
      ClosedIsFixed(data, skip);
    }
  }

  function Single(k: string, v: Json): Json {
    Obj(map[k := v])
  }

  lemma CloseSingle(k: string, v: Json)
    requires k != "properties"
    ensures Close(Single(k, v), false) == Single(k, Close(v, false))
  {
    assert Close(Single(k, v), false).fields == map[k := Close(v, false)];
  }

  lemma ReplaceSingle(k: string, v: Json)
    ensures Replace(Single(k, v)) == Single(k, ReplaceValue(v))
  {
    assert Replace(Single(k, v)).fields == map[k := ReplaceValue(v)];
  }

  /** The examples that the script gives for its passes. */
  lemma ClosingExamples()
    ensures Close(Single("something", Single("properties", Obj(map[]))), false)
         == Single("something", Obj(map["properties" := Obj(map[]), "additionalProperties" := Bool(false)]))
    ensures Close(Single("something", Single("somethingelse", Obj(map[]))), false)
         == Single("something", Single("somethingelse", Obj(map[])))
  {
    var open := Single("properties", Obj(map[]));
    assert Close(Obj(map[]), false).fields == map[];
    assert Close(open, false).fields == map["properties" := Obj(map[]), "additionalProperties" := Bool(false)];
    CloseSingle("something", open);
    CloseSingle("somethingelse", Obj(map[]));
    CloseSingle("something", Single("somethingelse", Obj(map[])));
  }

  lemma ReplacingExamples(format: string)
    ensures Replace(Single("something", Single("format", Str(format))))
         == if format == "int-or-string"
            then Single("something", Single("oneOf", Arr([Single("type", Str("string")),
                                                          Single("type", Str("integer"))])))
            else Single("something", Single("format", Str(format)))
  {
    var inner := Single("format", Str(format));
    ReplaceSingle("something", inner);
    if format != "int-or-string" {
      ReplaceSingle("format", Str(format));
    }
  }
}
