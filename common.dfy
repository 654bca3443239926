/** Shared vocabulary: optional (possibly undefined) values and JavaScript truthiness. */
module Common {

  /** A value that may be `undefined`/`null` in the source. */
  datatype Option<+T> = None | Some(value: T) {
    function GetOr(default: T): T {
      if Some? then value else default
    }
  }

  /** A possibly-undefined string is truthy in JavaScript iff it is defined and non-empty. */
  predicate Truthy(s: Option<string>) {
    s.Some? && s.value != ""
  }
}
