/** Optional values: an absent session, an accepted validation. */
module Options {
  datatype Option<+T> = None | Some(value: T)
}
