/** A value that may be missing: AV_NOPTS_VALUE, a null pointer, an absent option. */
module Options {
  datatype Option<+T> = None | Some(value: T)
}
