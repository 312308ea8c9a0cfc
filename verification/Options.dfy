/** Absent values and failed calls. */
module Options {
  /** A null pointer, a missing key or a failed read is None. */
  datatype Option<+T> = None | Some(value: T) {
    function GetOr(default: T): T {
      if Some? then value else default
    }
  }

  /** What a TypeScript call gives back: a value, or an exception. */
  datatype Result<+T> = Ok(value: T) | Throws
}
