/** The optional value used for Go's "value or error" and "value or nil" returns. */
module Options {
  datatype Option<+T> = None | Some(value: T)
}
