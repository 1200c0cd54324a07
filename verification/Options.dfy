/** The optional value used where the Go code returns nil or an error-or-nil. */
module Options {
  datatype Option<+T> = None | Some(value: T)
}
