/** An optional value, for error returns whose detail no caller reads. */
module Options {
  datatype Option<+T> = None | Some(value: T)
}
