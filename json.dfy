/** Shapes of JSON values as the TypeScript code sees them: an optional
    property (`undefined` or a value), a nullable optional property
    (`undefined`, `null` or a value), and JavaScript truthiness of strings
    and booleans. */
module Json {

  /** An optional property: `undefined` (None) or a value. */
  datatype Option<T> = None | Some(value: T) {
    function GetOr(default: T): T {
      match this
      case Some(v) => v
      case None => default
    }
  }

  /** A property that may be missing (`undefined`), explicitly `null`, or a value. */
  datatype Field<T> = Absent | Null | Present(value: T)

  /** `!!s` for an optional string: defined and non-empty. */
  predicate Truthy(s: Option<string>) {
    s.Some? && s.value != ""
  }

  /** `!!s` for a nullable optional string. */
  predicate TruthyField(s: Field<string>) {
    s.Present? && s.value != ""
  }

  /** `!!b` for an optional boolean. */
  predicate IsTrue(b: Option<bool>) {
    b == Some(true)
  }

  /** `s || ''`: the string, or the empty string when it is falsy. */
  function OrEmpty(s: Option<string>): (r: string)
    ensures Truthy(s) ==> r == s.value
    ensures !Truthy(s) ==> r == ""
  {
    if s.Some? then s.value else ""
  }
}
