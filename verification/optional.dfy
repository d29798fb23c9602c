/** The absent-or-present values of the JSON records: a field that may be missing. */
module Optional {
  datatype Option<+T> = None | Some(value: T)
}
