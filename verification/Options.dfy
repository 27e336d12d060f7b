/** A value that may be absent: the kernel's NULL results. */
module Options {
  datatype Option<+T> = None | Some(value: T)
}
