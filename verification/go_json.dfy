/**
 * JSON values as the service handles them, and how `encoding/json` encodes
 * the two shapes of Go value the query step produces: a decoded value, or
 * a `[]interface{}` slice, which may be nil.
 */
module GoJson {

  datatype Json =
    | JNull
    | JBool(b: bool)
    | JNumber(n: real)
    | JString(s: string)
    | JArray(elems: seq<Json>)
    | JObject(members: seq<(string, Json)>)

  /**
   * A Go slice of decoded values. A nil slice has no elements; a non-nil
   * slice may still be empty.
   */
  datatype Slice = Slice(elems: seq<Json>, isNil: bool)

  type GoSlice = s: Slice | s.isNil ==> s.elems == [] witness Slice([], true)

  /** `var results []interface{}`: the nil slice. */
  const NilSlice: GoSlice := Slice([], true)

  /** `append(s, v)`: never nil afterwards, `v` at the end. */
  function Append(s: GoSlice, v: Json): (r: GoSlice)
    ensures !r.isNil
    ensures r.elems == s.elems + [v]
  {
    Slice(s.elems + [v], false)
  }

  /** The Go value handed to the encoder. */
  datatype GoValue = Value(j: Json) | SliceValue(s: GoSlice)

  /** The JSON document the encoder produces: a nil slice becomes `null`. */
  function Encode(v: GoValue): (r: Json)
    ensures v.Value? ==> r == v.j
    ensures v.SliceValue? && v.s.isNil ==> r == JNull
    ensures v.SliceValue? && !v.s.isNil ==> r == JArray(v.s.elems)
  {
    match v
    case Value(j) => j
    case SliceValue(s) => if s.isNil then JNull else JArray(s.elems)
  }

  /** The nil slice and an empty non-nil slice hold the same elements but encode differently. */
  lemma NilAndEmptyDiffer()
    ensures NilSlice.elems == Slice([], false).elems
    ensures Encode(SliceValue(NilSlice)) == JNull
    ensures Encode(SliceValue(Slice([], false))) == JArray([])
  {
  }
}
