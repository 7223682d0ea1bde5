// packages/model-option-map/src/types.ts: JSON values.

module Json {
  // Objects are maps, so two objects with the same members are equal whatever the order of their
  // keys; numbers are opaque.

  import opened CodeUnits

  type Number(==, !new)

  datatype Json =
    | Null
    | Bool(b: bool)
    | Num(n: Number)
    | Str(s: Text)
    | Arr(items: seq<Json>)
    | Obj(fields: map<Text, Json>)

  type Fields = map<Text, Json>

  // The object patch or target at a key, with everything that is not an object read as empty.
  function ObjectOrEmpty(v: Json): (fields: Fields)
    ensures v.Obj? ==> fields == v.fields
    ensures !v.Obj? ==> fields == map[]
  {
    if v.Obj? then v.fields else map[]
  }
}
