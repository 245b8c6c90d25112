/** A value or nothing: the source's `null`, its `NaN` and what it throws. */
module Options {
  datatype Option<+T> = None | Some(value: T)
}
