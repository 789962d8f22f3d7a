/** The optional value that hooks, registry lookups and annotation queries return. */
module Options {
  datatype Option<+T> = None | Some(value: T)
}
