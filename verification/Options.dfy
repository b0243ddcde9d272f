/** The absent-or-present values used for nullable columns and for oracle answers. */
module Options {
  datatype Option<+T> = None | Some(value: T)
}
