/** The optional value used wherever the script tests a match or a lookup
    for `null`, `undefined` or -1. */
module Options {
  datatype Option<T> = None | Some(value: T)
}
