/** Python's `None`-or-value results, as returned by every parsing helper of the worker. */
module Wrappers {

  datatype Option<+T> = None | Some(value: T)
}
