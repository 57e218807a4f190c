/** A value that may be missing: a lookup that finds nothing, a refusal without a reason. */
module Options {
  datatype Option<+T> = None | Some(value: T)
}
