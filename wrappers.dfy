/** The optional values of the source: TypeScript's `undefined`/`null` next to a value. */
module Wrappers {

  datatype Maybe<+T> = Nothing | Just(value: T) {

    /** `x ?? d`: the value when present, otherwise the default. */
    function GetOr(default: T): T {
      match this
      case Just(v) => v
      case Nothing => default
    }
  }
}
