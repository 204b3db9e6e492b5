/** An optional value: a parsed timestamp, or an armed timer's deadline. */
module Optional {
  datatype Option<+T> = None | Some(value: T)
}
