/** Optional values shared by the schedule and gateway modules. */
module Wrappers {

  /** A value that may be absent: a `findOne` that matched nothing, or a
      property read through `?.` on a missing map entry. */
  datatype Option<T> = None | Some(value: T)
}
