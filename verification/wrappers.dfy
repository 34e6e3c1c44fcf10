/** Optional values: the directory listing that `readdir` may fail to
    produce, and the cause a run may have logged. */
module Wrappers {

  datatype Option<+T> = None | Some(value: T)
}
