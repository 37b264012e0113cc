/** The value-or-nothing type the models use where the Go code uses a nil
    error, a nil pointer or a comma-ok result. */
module Options {
  datatype Option<+T> = None | Some(value: T)
}
