/** Optional values: a moving-average cell that pandas leaves as NaN is `None` here. */
module Wrappers {

  datatype Option<+T> = None | Some(value: T)
}
