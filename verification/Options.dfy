/** Optional values: a nil of the source is `None`. */
module Options {

  datatype Option<+T> = None | Some(value: T)
}
