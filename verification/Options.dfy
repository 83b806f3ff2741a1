/** The optional values that stand for the source's `undefined` and `null`. */
module Options {
  datatype Option<+T> = None | Some(value: T)

  /** A value the source treats as present: neither undefined nor the empty string. */
  predicate Truthy(o: Option<string>) {
    o.Some? && o.value != ""
  }
}
