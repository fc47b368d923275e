/**
 * A value that may be missing: an `undefined` property, a `null` table, a
 * translation that is not there.
 */
module Options {
  datatype Option<T> = None | Some(value: T)
}
