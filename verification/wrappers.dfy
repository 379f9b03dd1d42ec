/** Small value wrappers shared by every module of the model. */
module Wrappers {

  /** A value that may be absent: the model of a TypeScript optional field
      (`field?: T`) and of `undefined`. */
  datatype Option<+T> = None | Some(value: T) {

    /** The `??` operator: the value when present, else the default. */
    function GetOr(default: T): T {
      match this
      case Some(v) => v
      case None => default
    }
  }

  /** A field read from a parsed JSON request body. `Absent` is a missing
      key, `Null` an explicit `null`, `Str` a string and `Other` any other
      JSON value (number, boolean, array, object). */
  datatype JsonField = Absent | Null | Str(text: string) | Other {

    /** True for the two values that `??` replaces. */
    predicate IsNullish() {
      Absent? || Null?
    }
  }

  /** JavaScript truthiness of an optional string: present and non-empty. */
  predicate Truthy(o: Option<string>) {
    o.Some? && o.value != ""
  }
}
