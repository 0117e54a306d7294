/** A value that may be missing: what the code returns as an error code, a null pointer or
    a "not found" flag beside an output parameter. */
module Options {

  datatype Option<T> = None | Some(value: T)
}
