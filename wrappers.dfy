/** Optional values: a null `shared_ptr`, an absent readiness table or an
    index that was not found. */
module Wrappers {

  datatype Option<+T> = None | Some(value: T)
}
