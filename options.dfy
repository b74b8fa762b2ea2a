/** An optional value, for the source's `undefined` / `null` results. */
module Options {
  datatype Option<+T> = None | Some(value: T)
}
