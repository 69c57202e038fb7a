/** Options and results, in the sense of the Rust types of the same names. */
module Common {

  datatype Option<+T> = None | Some(value: T) {

    function UnwrapOr(default: T): T {
      if Some? then value else default
    }
  }

  datatype Result<+T, +E> = Ok(value: T) | Err(error: E)
}
