/** Optional values, used for the grammar table, the first failing check and the
    leftover-token message. */
module Wrappers {

  datatype Option<+T> = None | Some(value: T)
}
