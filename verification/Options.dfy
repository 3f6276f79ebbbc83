/** A value that may be missing: the source's NULL pointers and INT_MAX sentinels. */
module Options {
  datatype Option<+T> = None | Some(value: T)
}
