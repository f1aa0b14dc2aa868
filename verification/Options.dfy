/** Nullable values, as the services' optional fields and nullable columns have them. */
module Options {

  datatype Option<+T> = None | Some(value: T)

  /** JavaScript truth of a nullable string: the empty string counts as missing. */
  predicate Truthy(s: Option<string>) {
    s.Some? && s.value != ""
  }
}
