/** JSON values as Go's `any` holds them after decoding. */
module JsonTree {

  datatype Json =
    | Null
    | Text(text: string)
    | Number(digits: string)
    | Flag(on: bool)
    | Arr(items: seq<Json>)
    | Obj(fields: map<string, Json>)

  const EMPTY_OBJECT := Obj(map[])

  function Field(j: Json, name: string): Json {
    if j.Obj? && name in j.fields then j.fields[name] else Null
  }

  function With(j: Json, name: string, v: Json): Json
    requires j.Obj?
  {
    Obj(j.fields[name := v])
  }

  /** Two objects with the same fields are the same value. */
  lemma SameObject(a: Json, b: Json)
    requires a.Obj? && b.Obj? && a.fields.Keys == b.fields.Keys
    requires forall k :: k in a.fields ==> a.fields[k] == b.fields[k]
    ensures a == b
  {
    assert a.fields == b.fields;
  }
}
