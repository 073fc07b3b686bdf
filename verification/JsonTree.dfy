/** JSON values as trees. Objects are maps, so the order of keys is not represented. */
module JsonTree {

  datatype Json =
    | Null
    | Bool(b: bool)
    | Num(n: real)
    | Str(s: string)
    | Arr(elems: seq<Json>)
    | Obj(fields: map<string, Json>)

  predicate IsInteger(j: Json) {
    j.Num? && j.n.Floor as real == j.n
  }

  /** The fields of the object under a key; anything else there counts as no fields. */
  function SubMap(f: map<string, Json>, k: string): map<string, Json> {
    if k in f && f[k].Obj? then f[k].fields else map[]
  }
}
