/** Option values and field patches, shared by every module of the model. */
module Wrappers {

  /** A JavaScript value that may be `null`/`undefined` (None) or present (Some). */
  datatype Option<+T> = None | Some(value: T) {
    function GetOr(default: T): T {
      match this
      case Some(v) => v
      case None => default
    }
  }

  /** One key of a `Partial<...>` update object: absent (Keep), or present with a value. */
  datatype Patch<+T> = Keep | Put(value: T) {
    function Apply(prev: T): T {
      match this
      case Keep => prev
      case Put(v) => v
    }
  }

  /** JavaScript truthiness of an optional identifier: `null`, `undefined` and `""` are falsy. */
  predicate Truthy(o: Option<string>) {
    o.Some? && o.value != ""
  }
}
