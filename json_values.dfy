/** Parsed JSON values, as `JSON.parse` produces them and `JSON.stringify`
    writes them. Numbers are kept whole; the document never relies on
    fractional numbers. */
module JsonValues {
  import opened Wrappers

  datatype Json =
    | JNull
    | JBool(b: bool)
    | JNum(n: int)
    | JStr(s: string)
    | JArr(items: seq<Json>)
    | JObj(fields: map<string, Json>)

  /** Property access `v.key` on a value that is not `null`: a missing
      property, and any property of a non-object, is `undefined` (`None`).
      Access on `null` throws; callers treat that case themselves. */
  function Prop(v: Json, key: string): Option<Json> {
    if v.JObj? && key in v.fields then Some(v.fields[key]) else None
  }

  /** `Array.isArray(v)` of a possibly undefined value. */
  predicate IsArray(v: Option<Json>) {
    v.Some? && v.value.JArr?
  }

  /** `typeof v === 'string'` of a possibly undefined value. */
  predicate IsString(v: Option<Json>) {
    v.Some? && v.value.JStr?
  }

  /** `v == null`: undefined or `null`, the values `??` replaces. */
  predicate IsNullish(v: Option<Json>) {
    v.None? || v.value.JNull?
  }
}
