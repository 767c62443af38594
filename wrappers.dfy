/** Optional values: `None` stands for a field the request leaves unset (or a
    C# `decimal?` that holds no value), `Some(v)` for one set to `v`. */
module Wrappers {

  datatype Option<+T> = None | Some(value: T)
}
