/** Values that may be absent, as Python's `dict.get` and `None` results are. */
module Wrappers {

  datatype Option<+T> = None | Some(value: T)

}
