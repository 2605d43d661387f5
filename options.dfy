/** An optional value: a result that may be absent (no bucket, no separator found). */
module Options {
  datatype Option<T> = None | Some(value: T)
}
