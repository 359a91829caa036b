/** A value that may be missing: an absent page element, or the NaN that
    `parseInt` yields when a field has no leading decimal digit. */
module Options {
  datatype Option<+T> = None | Some(value: T)
}
