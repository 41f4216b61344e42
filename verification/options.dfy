/** The optional value used wherever the source has a value that may be absent:
    an empty tuple `()` for "no en-passant square", or an index that does not exist. */
module Options {
  datatype Option<+T> = None | Some(value: T)
}
