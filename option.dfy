/** The optional value used where the source's behaviour is undefined: `None` marks an out-of-range access. */
module Options {
  datatype Option<T> = None | Some(value: T)
}
