/**
 Small shared vocabulary: optional values and the JavaScript notion of a
 "truthy" string, which the route handlers use to read environment
 variables, form fields and metadata (`x || "default"`, `if (!x)`).
 */
module Common {

  /** A value that may be absent (`null` or `undefined` on the JavaScript side). */
  datatype Option<+T> = None | Some(value: T) {

    /** `this ?? default` */
    function GetOr(default: T): T {
      match this
      case Some(v) => v
      case None => default
    }
  }

  /** `null`, `undefined` and the empty string are falsy; every other string is truthy. */
  predicate Truthy(o: Option<string>) {
    o.Some? && o.value != ""
  }

  /** `o || default` for an optional string. */
  function OrElse(o: Option<string>, default: string): string {
    if Truthy(o) then o.value else default
  }

  /** `o || null` for an optional string: the empty string becomes `null`. */
  function NonEmpty(o: Option<string>): Option<string> {
    if Truthy(o) then o else None
  }

  /** `map.get(key)` on a string-keyed map, absent keys giving `undefined`. */
  function Lookup<K, V>(m: map<K, V>, key: K): Option<V> {
    if key in m then Some(m[key]) else None
  }
}
