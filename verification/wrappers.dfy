/** Optional values, used for lookups that may miss and dialogs that may be declined. */
module Wrappers {

  datatype Option<+T> = None | Some(value: T)
}
