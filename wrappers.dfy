/** Python's `None`-or-value, as returned by the bridge's lookups. */
module Wrappers {

  datatype Option<+T> = None | Some(value: T)
}
