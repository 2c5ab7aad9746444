/** The option type shared by every module: a Python `None` or a value. */
module Options {
  datatype Option<+T> = None | Some(value: T)
}
