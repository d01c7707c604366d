/** Optional values: a field that may be absent from a record. */
module Optional {
  datatype Option<+T> = None | Some(value: T)
}
